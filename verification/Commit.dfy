/** Putting a finished file in place: the commit of a transfer's partial file, and the save of an edited
    remote file. Both move the old file aside, move the new one in, and drop the old one.

    Outcome lists every tree that a reader, or a restart after a crash, could find on the way. */
module Commit {
  import opened Prelude
  import opened Files

  datatype Outcome = Outcome(trees: seq<Tree>, answer: Result<()>)

  predicate DifferentNames(partial: Path, destination: Path, backup: Path) {
    partial != destination && partial != backup && destination != backup
  }

  /** Moving the old file aside and the new one in. */
  function Swap(files: Tree, partial: Path, destination: Path, backup: Path, overwrites: bool,
                first: Fault, second: Fault): Outcome {
    var aside := Renamed(files, destination, backup, overwrites, first);
    var answer := RenameAnswer(files, destination, backup, overwrites, first);
    if answer.Err? then Outcome([aside], answer)
    else Outcome([aside, Renamed(aside, partial, destination, overwrites, second)],
                 RenameAnswer(aside, partial, destination, overwrites, second))
  }

  function Last(trees: seq<Tree>): Tree
    requires trees != []
  {
    trees[|trees| - 1]
  }

  /** The whole exchange: after a failed second move the first is undone, else the backup is dropped. */
  function Exchange(files: Tree, partial: Path, destination: Path, backup: Path, overwrites: bool,
                    first: Fault, second: Fault, third: Fault): Outcome {
    var swap := Swap(files, partial, destination, backup, overwrites, first, second);
    if |swap.trees| == 1 then swap
    else if swap.answer.Err? then
      Outcome(swap.trees + [Renamed(Last(swap.trees), backup, destination, overwrites, third)], swap.answer)
    else
      Outcome(swap.trees + [Removed(Last(swap.trees), backup, third)], RemoveAnswer(Last(swap.trees), backup, third))
  }

  /** The commit of a transfer: one rename when the destination is free, an exchange when it is not. */
  function Committed(files: Tree, partial: Path, destination: Path, backup: Path, overwrites: bool,
                     look: Fault, first: Fault, second: Fault, third: Fault): Outcome {
    if !look.Fine? then Outcome([files], Err(look.error))
    else if destination !in files then
      Outcome([files, Renamed(files, partial, destination, overwrites, first)],
              RenameAnswer(files, partial, destination, overwrites, first))
    else
      var rest := Exchange(files, partial, destination, backup, overwrites, first, second, third);
      Outcome([files] + rest.trees, rest.answer)
  }

  /** What the save of an edited file does once its temp file is written: the exchange, but after an undone
      move the temp file is thrown away too. */
  function Saved(files: Tree, temp: Path, destination: Path, backup: Path, overwrites: bool,
                 first: Fault, second: Fault, third: Fault, fourth: Fault): Outcome {
    var exchange := Exchange(files, temp, destination, backup, overwrites, first, second, third);
    if |exchange.trees| == 3 && Swap(files, temp, destination, backup, overwrites, first, second).answer.Err? then
      Outcome(exchange.trees + [Removed(exchange.trees[2], temp, fourth)], exchange.answer)
    else
      exchange
  }

  // ---------------------------------------------------------------------------------------------
  // The methods

  /** The exchange with a file that is there already. */
  method SwapIn(fs: Filesystem, partial: Path, destination: Path, backup: Path) returns (r: Result<()>)
    modifies fs
    ensures fs.clock > old(fs.clock)
    ensures var c, f := old(fs.clock), fs.fault;
            var outcome := Exchange(old(fs.files), partial, destination, backup, fs.overwrites, f(c), f(c + 1),
                                    f(c + 2));
            && r == outcome.answer
            && fs.trace == old(fs.trace) + outcome.trees
            && fs.files == Last(outcome.trees)
    ensures r.Ok? && DifferentNames(partial, destination, backup) && partial in old(fs.synced) ==>
      destination in fs.synced
    ensures r.Ok? ==> unchanged(fs`failures)
  {
    r := fs.Rename(destination, backup);
    if r.Err? {
      return;
    }
    r := fs.Rename(partial, destination);
    if r.Err? {
      var _ := fs.Rename(backup, destination);
      return;
    }
    r := fs.Remove(backup);
  }

  method CommitPartial(fs: Filesystem, partial: Path, destination: Path, backup: Path) returns (r: Result<()>)
    modifies fs
    ensures fs.clock > old(fs.clock)
    ensures var c, f := old(fs.clock), fs.fault;
            var outcome := Committed(old(fs.files), partial, destination, backup, fs.overwrites,
                                     f(c), f(c + 1), f(c + 2), f(c + 3));
            && r == outcome.answer
            && fs.trace == old(fs.trace) + outcome.trees
            && fs.files == Last(outcome.trees)
    // What was synced before is so at its destination.
    ensures r.Ok? && DifferentNames(partial, destination, backup) && partial in old(fs.synced) ==>
      destination in fs.synced
    ensures r.Ok? ==> unchanged(fs`failures)
  {
    var found := fs.Metadata(destination);
    if found.Err? {
      return Err(found.error);
    }
    if found.value.None? {
      r := fs.Rename(partial, destination);
      return;
    }
    r := SwapIn(fs, partial, destination, backup);
  }

  /** What the temp file holds after its first bytes were written; it is created with the first ones. */
  function Begun(base: Tree, temp: Path, content: Bytes, offset: nat): Tree
    requires offset <= |content|
  {
    if offset == 0 then base else base[temp := content[..offset]]
  }

  lemma ChunkWritten(base: Tree, temp: Path, content: Bytes, offset: nat, next: nat, fault: Fault)
    requires temp !in base && offset < next <= |content|
    ensures var files := Written(Begun(base, temp, content, offset), temp, offset, content[offset..next], fault);
            OnlyTouches(base, files, {temp}) && (fault.Fine? ==> files == Begun(base, temp, content, next))
  {
    assert Overlay(content[..offset], offset, content[offset..next]) == content[..next];
  }

  lemma OneMoreTouch(trace: seq<Tree>, n: nat, base: Tree, tree: Tree, paths: set<Path>)
    requires TouchOnly(trace, n, base, paths) && OnlyTouches(base, tree, paths)
    ensures TouchOnly(trace + [tree], n, base, paths)
  {
  }

  /** Overlaying chunk after chunk at the growing end. */
  method WriteTemp(fs: Filesystem, temp: Path, content: Bytes, chunkSize: nat) returns (r: Result<()>)
    requires chunkSize > 0 && temp !in fs.files
    modifies fs
    ensures old(fs.trace) <= fs.trace && fs.clock >= old(fs.clock)
    ensures OnlyTouches(old(fs.files), fs.files, {temp})
    ensures TouchOnly(fs.trace, |old(fs.trace)|, old(fs.files), {temp})
    ensures r.Ok? ==> fs.files == old(fs.files)[temp := content]
    ensures old(fs.Healthy()) ==> r.Ok?
    ensures r.Ok? ==> unchanged(fs`failures)
  {
    if content == [] {
      r := fs.Write(temp, 0, []);
      return;
    }
    ghost var base, n := fs.files, |fs.trace|;
    var offset := 0;
    while offset < |content|
      invariant 0 <= offset <= |content|
      invariant old(fs.trace) <= fs.trace && fs.clock >= old(fs.clock)
      invariant fs.files == Begun(base, temp, content, offset)
      invariant TouchOnly(fs.trace, n, base, {temp}) && unchanged(fs`failures)
    {
      var next := Min(offset + chunkSize, |content|);
      ChunkWritten(base, temp, content, offset, next, fs.fault(fs.clock));
      ghost var before := fs.trace;
      r := fs.Write(temp, offset, content[offset..next]);
      OneMoreTouch(before, n, base, fs.files, {temp});
      if r.Err? {
        return;
      }
      offset := next;
    }
    assert content[..|content|] == content;
    r := Ok(());
  }

  const REMOTE_FILE_CHUNK_SIZE: nat := 1024 * 1024

  /** Saving an edited remote file. The temp and backup names carry fresh random ids. */
  method SaveRemoteBytes(fs: Filesystem, path: Path, content: Bytes, temp: Path, backup: Path) returns (r: Result<()>)
    requires DifferentNames(temp, path, backup) && temp !in fs.files && backup !in fs.files
    modifies fs
    ensures old(fs.trace) <= fs.trace
    // Nothing else changes, and the file never disappears.
    ensures TouchOnly(fs.trace, |old(fs.trace)|, old(fs.files), {temp, path, backup})
    ensures GuardedThroughout(fs.trace, |old(fs.trace)|, old(fs.files), path, backup, Some(content))
    ensures r.Ok? ==> path in old(fs.files) && fs.files == old(fs.files)[path := content]
    // What is in place then has reached the disk.
    ensures r.Ok? ==> path in fs.synced
    ensures old(fs.Healthy()) ==> (r.Ok? <==> path in old(fs.files))
    ensures r.Ok? ==> unchanged(fs`failures)
  {
    r := PrepareTemp(fs, temp, content);
    if r.Err? {
      SavedTrace(fs.trace, [], |old(fs.trace)|, old(fs.files), temp, path, backup, content);
      assert fs.trace + [] == fs.trace;
      return;
    }
    ghost var prepared := fs.trace;
    ghost var trees;
    r, trees := FinishSave(fs, path, temp, backup, old(fs.files), content);
    SavedTrace(prepared, trees, |old(fs.trace)|, old(fs.files), temp, path, backup, content);
  }

  method FinishSave(fs: Filesystem, path: Path, temp: Path, backup: Path, ghost base: Tree, ghost content: Bytes)
    returns (r: Result<()>, ghost trees: seq<Tree>)
    requires DifferentNames(temp, path, backup) && temp !in base && backup !in base
    requires fs.files == base[temp := content]
    modifies fs
    ensures fs.trace == old(fs.trace) + trees
    ensures forall i :: 0 <= i < |trees| ==> OnlyTouches(base, trees[i], {temp, path, backup})
    ensures forall i :: 0 <= i < |trees| ==> Guarded(base, trees[i], path, backup, Some(content))
    ensures r.Ok? ==> path in base && fs.files == base[path := content]
    ensures r.Ok? && temp in old(fs.synced) ==> path in fs.synced
    ensures old(fs.Healthy()) ==> (r.Ok? <==> path in base)
    ensures r.Ok? ==> unchanged(fs`failures)
  {
    ghost var c, f := fs.clock, fs.fault;
    SavedProperties(base, temp, path, backup, content, fs.overwrites, f(c), f(c + 1), f(c + 2), f(c + 3));
    trees := Saved(base[temp := content], temp, path, backup, fs.overwrites, f(c), f(c + 1), f(c + 2), f(c + 3)).trees;
    r := MoveTempIn(fs, path, temp, backup);
  }

  method PrepareTemp(fs: Filesystem, temp: Path, content: Bytes) returns (r: Result<()>)
    requires temp !in fs.files
    modifies fs
    ensures old(fs.trace) <= fs.trace && fs.clock >= old(fs.clock)
    ensures TouchOnly(fs.trace, |old(fs.trace)|, old(fs.files), {temp})
    ensures r.Ok? ==> fs.files == old(fs.files)[temp := content] && temp in fs.synced
    ensures old(fs.Healthy()) ==> r.Ok?
    ensures r.Ok? ==> unchanged(fs`failures)
  {
    r := WriteTemp(fs, temp, content, REMOTE_FILE_CHUNK_SIZE);
    if r.Ok? {
      r := fs.Sync(temp);
    }
  }

  lemma SavedTrace(prepared: seq<Tree>, trees: seq<Tree>, n: nat, base: Tree,
                   temp: Path, path: Path, backup: Path, content: Bytes)
    requires n <= |prepared| && TouchOnly(prepared, n, base, {temp}) && temp != path && temp != backup
    requires forall i :: 0 <= i < |trees| ==> OnlyTouches(base, trees[i], {temp, path, backup})
    requires forall i :: 0 <= i < |trees| ==> Guarded(base, trees[i], path, backup, Some(content))
    ensures TouchOnly(prepared + trees, n, base, {temp, path, backup})
    ensures GuardedThroughout(prepared + trees, n, base, path, backup, Some(content))
  {
    var trace := prepared + trees;
    forall i | n <= i < |trace|
      ensures OnlyTouches(base, trace[i], {temp, path, backup})
      ensures Guarded(base, trace[i], path, backup, Some(content))
    {
      if i < |prepared| {
        assert trace[i] == prepared[i] && OnlyTouches(base, prepared[i], {temp});
        assert SameAt(base, trace[i], path) && SameAt(base, trace[i], backup);
      } else {
        assert trace[i] == trees[i - |prepared|];
      }
    }
  }

  lemma SavedIsGuarded(base: Tree, temp: Path, path: Path, backup: Path, content: Bytes, overwrites: bool,
                       first: Fault, second: Fault, third: Fault, fourth: Fault)
    requires DifferentNames(temp, path, backup) && temp !in base && backup !in base
    ensures var trees := Saved(base[temp := content], temp, path, backup, overwrites, first, second, third,
                               fourth).trees;
            forall i :: 0 <= i < |trees| ==> Guarded(base, trees[i], path, backup, Some(content))
  {
  }

  lemma SavedTouchesThree(base: Tree, temp: Path, path: Path, backup: Path, content: Bytes, overwrites: bool,
                          first: Fault, second: Fault, third: Fault, fourth: Fault)
    requires DifferentNames(temp, path, backup)
    ensures var trees := Saved(base[temp := content], temp, path, backup, overwrites, first, second, third,
                               fourth).trees;
            forall i :: 0 <= i < |trees| ==> OnlyTouches(base, trees[i], {temp, path, backup})
  {
  }

  /** A save succeeds exactly when the file is there, unless something fails, and then it has changed only the file. */
  lemma SavedSucceeds(base: Tree, temp: Path, path: Path, backup: Path, content: Bytes, overwrites: bool,
                      first: Fault, second: Fault, third: Fault, fourth: Fault)
    requires DifferentNames(temp, path, backup) && temp !in base && backup !in base
    ensures var o := Saved(base[temp := content], temp, path, backup, overwrites, first, second, third, fourth);
            && (o.answer.Ok? ==> path in base && Last(o.trees) == base[path := content])
            && (first.Fine? && second.Fine? && third.Fine? ==> (o.answer.Ok? <==> path in base))
  {
  }

  lemma SavedProperties(base: Tree, temp: Path, path: Path, backup: Path, content: Bytes, overwrites: bool,
                        first: Fault, second: Fault, third: Fault, fourth: Fault)
    requires DifferentNames(temp, path, backup) && temp !in base && backup !in base
    ensures var o := Saved(base[temp := content], temp, path, backup, overwrites, first, second, third, fourth);
            && (forall i :: 0 <= i < |o.trees| ==> OnlyTouches(base, o.trees[i], {temp, path, backup}))
            && (forall i :: 0 <= i < |o.trees| ==> Guarded(base, o.trees[i], path, backup, Some(content)))
            && (o.answer.Ok? ==> path in base && Last(o.trees) == base[path := content])
            && (first.Fine? && second.Fine? && third.Fine? ==> (o.answer.Ok? <==> path in base))
  {
    SavedTouchesThree(base, temp, path, backup, content, overwrites, first, second, third, fourth);
    SavedIsGuarded(base, temp, path, backup, content, overwrites, first, second, third, fourth);
    SavedSucceeds(base, temp, path, backup, content, overwrites, first, second, third, fourth);
  }

  method MoveTempIn(fs: Filesystem, path: Path, temp: Path, backup: Path) returns (r: Result<()>)
    modifies fs
    ensures fs.clock > old(fs.clock)
    ensures var c, f := old(fs.clock), fs.fault;
            var outcome := Saved(old(fs.files), temp, path, backup, fs.overwrites, f(c), f(c + 1), f(c + 2), f(c + 3));
            && r == outcome.answer
            && fs.trace == old(fs.trace) + outcome.trees
            && fs.files == Last(outcome.trees)
    ensures r.Ok? && DifferentNames(temp, path, backup) && temp in old(fs.synced) ==> path in fs.synced
    ensures r.Ok? ==> unchanged(fs`failures)
  {
    r := fs.Rename(path, backup);
    if r.Err? {
      return;
    }
    r := fs.Rename(temp, path);
    if r.Err? {
      PutBack(fs, path, temp, backup);
      return;
    }
    r := fs.Remove(backup);
  }

  /** Undoes the first move and discards the temp file, whether or not that works. */
  method PutBack(fs: Filesystem, path: Path, temp: Path, backup: Path)
    modifies fs
    ensures fs.clock == old(fs.clock) + 2
    ensures var back := Renamed(old(fs.files), backup, path, fs.overwrites, fs.fault(old(fs.clock)));
            var done := Removed(back, temp, fs.fault(old(fs.clock) + 1));
            fs.files == done && fs.trace == old(fs.trace) + [back, done]
  {
    var _ := fs.Rename(backup, path);
    var _ := fs.Remove(temp);
  }

  // ---------------------------------------------------------------------------------------------
  // Main results

  /** At the destination there is only ever the old content or the fresh one, whole; and while nothing is
      there, the old content is whole at the backup name. Without an old content the backup name is not
      used. */
  predicate Guarded(base: Tree, t: Tree, destination: Path, backup: Path, fresh_: Option<Bytes>) {
    && (destination in t ==>
        (destination in base && t[destination] == base[destination]) || fresh_ == Some(t[destination]))
    && (destination in base && destination !in t ==> backup in t && t[backup] == base[destination])
    && (destination !in base ==> SameAt(base, t, backup))
  }

  ghost predicate GuardedThroughout(trace: seq<Tree>, n: nat, base: Tree, destination: Path, backup: Path,
                                    fresh_: Option<Bytes>) {
    forall i :: n <= i < |trace| ==> Guarded(base, trace[i], destination, backup, fresh_)
  }

  /** Whichever step fails, and wherever the program stops, no content is lost. */
  lemma ExchangeLosesNothing(files: Tree, partial: Path, destination: Path, backup: Path, overwrites: bool,
                             first: Fault, second: Fault, third: Fault)
    requires DifferentNames(partial, destination, backup)
    ensures var trees := Exchange(files, partial, destination, backup, overwrites, first, second, third).trees;
            forall i :: 0 <= i < |trees| ==> Guarded(files, trees[i], destination, backup, At(files, partial))
  {
  }

  lemma ExchangeTouchesThree(files: Tree, partial: Path, destination: Path, backup: Path, overwrites: bool,
                             first: Fault, second: Fault, third: Fault)
    ensures var trees := Exchange(files, partial, destination, backup, overwrites, first, second, third).trees;
            trees != [] && forall i :: 0 <= i < |trees| ==>
              OnlyTouches(files, trees[i], {partial, destination, backup})
  {
  }

  /** Success leaves exactly the new file: no partial and no backup. */
  lemma ExchangeSucceedsCleanly(files: Tree, partial: Path, destination: Path, backup: Path, overwrites: bool,
                                first: Fault, second: Fault, third: Fault)
    requires DifferentNames(partial, destination, backup)
    ensures var o := Exchange(files, partial, destination, backup, overwrites, first, second, third);
            o.answer.Ok? ==>
              && partial in files && destination in files
              && Last(o.trees) == (files - {partial, backup})[destination := files[partial]]
  {
  }

  /** The second move fails and changes nothing: the server or the connection refuses it, or the partial is missing. */
  predicate SecondIsRefused(files: Tree, partial: Path, destination: Path, backup: Path, overwrites: bool,
                            first: Fault, second: Fault) {
    var aside := Renamed(files, destination, backup, overwrites, first);
    && RenameAnswer(aside, partial, destination, overwrites, second).Err?
    && Renamed(aside, partial, destination, overwrites, second) == aside
  }

  /** A second move that is refused and undone restores everything; one that took effect, whether or not its answer
      arrived, is never undone completely. */
  lemma RefusedExchangeIsUndone(files: Tree, partial: Path, destination: Path, backup: Path, overwrites: bool,
                                first: Fault, second: Fault)
    requires DifferentNames(partial, destination, backup) && backup !in files
    ensures var o := Exchange(files, partial, destination, backup, overwrites, first, second, Fine);
            var refused := SecondIsRefused(files, partial, destination, backup, overwrites, first, second);
            && (refused ==> o.answer.Err?)
            && (first.Fine? && destination in files ==> (Last(o.trees) == files <==> refused))
    ensures !TakesEffect(second) || partial !in files ==>
              SecondIsRefused(files, partial, destination, backup, overwrites, first, second)
  {
    var aside := Renamed(files, destination, backup, overwrites, first);
    assert partial in aside <==> partial in files;
    if first.Fine? && destination in files
        && !SecondIsRefused(files, partial, destination, backup, overwrites, first, second) {
      var after := Renamed(aside, partial, destination, overwrites, second);
      assert partial in files && partial !in after;
    }
  }

  /** Without faults, an exchange succeeds exactly when both files are there and the backup name is free, or
      may be overwritten. A backup left over from an earlier attempt therefore blocks every later one on a
      server that refuses to overwrite. */
  lemma ExchangeSucceedsWhen(files: Tree, partial: Path, destination: Path, backup: Path, overwrites: bool)
    requires DifferentNames(partial, destination, backup)
    ensures Exchange(files, partial, destination, backup, overwrites, Fine, Fine, Fine).answer.Ok?
            <==> && partial in files && destination in files && (backup in files ==> overwrites)
  {
  }

  /** The same for a save, which also discards the temp file it had written. */
  lemma RefusedSaveIsUndone(base: Tree, temp: Path, path: Path, backup: Path, content: Bytes, overwrites: bool,
                            second: Fault)
    requires DifferentNames(temp, path, backup) && temp !in base && backup !in base
    requires path in base && !TakesEffect(second)
    ensures var o := Saved(base[temp := content], temp, path, backup, overwrites, Fine, second, Fine, Fine);
            o.answer.Err? && Last(o.trees) == base
  {
  }

  /** Where a successful commit leaves the tree. */
  function Landed(files: Tree, partial: Path, destination: Path, backup: Path): Tree
    requires partial in files
  {
    if destination in files then (files - {partial, backup})[destination := files[partial]]
    else (files - {partial})[destination := files[partial]]
  }

  /** A commit as a whole: it touches three names, loses nothing, lands exactly, and without faults
      succeeds exactly when the partial is there and no old backup is in the way. */
  lemma CommittedProperties(files: Tree, partial: Path, destination: Path, backup: Path, overwrites: bool,
                            look: Fault, first: Fault, second: Fault, third: Fault)
    requires DifferentNames(partial, destination, backup)
    ensures var o := Committed(files, partial, destination, backup, overwrites, look, first, second, third);
            && o.trees != []
            && (forall i :: 0 <= i < |o.trees| ==> OnlyTouches(files, o.trees[i], {partial, destination, backup}))
            && (forall i :: 0 <= i < |o.trees| ==> Guarded(files, o.trees[i], destination, backup, At(files, partial)))
            && (forall i :: 0 <= i < |o.trees| ==> PartialStays(files, o.trees[i], partial))
            && (o.answer.Ok? ==> partial in files && Last(o.trees) == Landed(files, partial, destination, backup))
            && (look.Fine? && first.Fine? && second.Fine? && third.Fine? ==>
                  && (o.answer.Ok? <==> partial in files && (destination in files && backup in files ==> overwrites))
                  && (o.answer.Err? ==> IsOwn(o.answer.error)))
  {
    if look.Fine? && destination in files {
      var rest := Exchange(files, partial, destination, backup, overwrites, first, second, third);
      ExchangeTouchesThree(files, partial, destination, backup, overwrites, first, second, third);
      ExchangeLosesNothing(files, partial, destination, backup, overwrites, first, second, third);
      ExchangeKeepsPartial(files, partial, destination, backup, overwrites, first, second, third);
      ExchangeSucceedsCleanly(files, partial, destination, backup, overwrites, first, second, third);
      ExchangeSucceedsWhen(files, partial, destination, backup, overwrites);
      AfterLooking(files, rest.trees, partial, destination, backup);
    }
  }

  /** As long as the partial is there, it is whole. */
  predicate PartialStays(files: Tree, t: Tree, partial: Path) {
    partial in t ==> partial in files && t[partial] == files[partial]
  }

  lemma ExchangeKeepsPartial(files: Tree, partial: Path, destination: Path, backup: Path, overwrites: bool,
                             first: Fault, second: Fault, third: Fault)
    requires DifferentNames(partial, destination, backup)
    ensures var trees := Exchange(files, partial, destination, backup, overwrites, first, second, third).trees;
            forall i :: 0 <= i < |trees| ==> PartialStays(files, trees[i], partial)
  {
  }

  lemma AfterLooking(files: Tree, rest: seq<Tree>, partial: Path, destination: Path, backup: Path)
    requires forall i :: 0 <= i < |rest| ==> OnlyTouches(files, rest[i], {partial, destination, backup})
    requires forall i :: 0 <= i < |rest| ==> Guarded(files, rest[i], destination, backup, At(files, partial))
    requires forall i :: 0 <= i < |rest| ==> PartialStays(files, rest[i], partial)
    ensures var trees := [files] + rest;
            && (forall i :: 0 <= i < |trees| ==> OnlyTouches(files, trees[i], {partial, destination, backup}))
            && (forall i :: 0 <= i < |trees| ==> Guarded(files, trees[i], destination, backup, At(files, partial)))
            && (forall i :: 0 <= i < |trees| ==> PartialStays(files, trees[i], partial))
  {
    var trees := [files] + rest;
    forall i | 0 <= i < |trees|
      ensures OnlyTouches(files, trees[i], {partial, destination, backup})
      ensures Guarded(files, trees[i], destination, backup, At(files, partial))
              && PartialStays(files, trees[i], partial)
    {
      assert i > 0 ==> trees[i] == rest[i - 1];
    }
  }

  method CommitSafely(fs: Filesystem, partial: Path, destination: Path, backup: Path)
    returns (r: Result<()>, ghost trees: seq<Tree>)
    requires DifferentNames(partial, destination, backup)
    modifies fs
    ensures fs.clock > old(fs.clock) && trees != []
    ensures fs.trace == old(fs.trace) + trees && fs.files == Last(trees)
    ensures forall i :: 0 <= i < |trees| ==> OnlyTouches(old(fs.files), trees[i], {partial, destination, backup})
    ensures forall i :: 0 <= i < |trees| ==>
      Guarded(old(fs.files), trees[i], destination, backup, At(old(fs.files), partial))
    ensures forall i :: 0 <= i < |trees| ==> PartialStays(old(fs.files), trees[i], partial)
    ensures r.Ok? ==> partial in old(fs.files) && fs.files == Landed(old(fs.files), partial, destination, backup)
    ensures old(fs.Healthy()) ==>
      (r.Ok? <==> && partial in old(fs.files)
                  && (destination in old(fs.files) && backup in old(fs.files) ==> fs.overwrites))
    ensures old(fs.Healthy()) && r.Err? ==> IsOwn(r.error)
    ensures r.Ok? && partial in old(fs.synced) ==> destination in fs.synced
    ensures r.Ok? ==> unchanged(fs`failures)
  {
    ghost var c, f := fs.clock, fs.fault;
    CommittedProperties(fs.files, partial, destination, backup, fs.overwrites, f(c), f(c + 1), f(c + 2), f(c + 3));
    trees := Committed(fs.files, partial, destination, backup, fs.overwrites, f(c), f(c + 1), f(c + 2), f(c + 3)).trees;
    r := CommitPartial(fs, partial, destination, backup);
  }
}
