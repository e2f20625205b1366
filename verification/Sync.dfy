/** Comparing two directories and planning the transfers and deletions that make them agree. */
module Sync {
  import opened Prelude
  import opened Ordering

  datatype FileKind = File | Directory | Symlink | Other

  /** The time of the last change. A text that does not parse is a time that compares with nothing. */
  datatype Stamp = Missing | At(millis: int) | Unreadable

  datatype FileEntry = FileEntry(name: string, kind: FileKind, size: Option<nat>, modified: Stamp)

  datatype Status = Same | LocalOnly | RemoteOnly | SizeMismatch | LocalNewer | RemoteNewer

  datatype Compared = Compared(name: string, local: Option<FileEntry>, remote: Option<FileEntry>, status: Status)

  datatype Mode = UploadMirror | DownloadMirror | TwoWay

  datatype ActionKind = Upload | Download | DeleteLocal | DeleteRemote

  datatype Action = Action(kind: ActionKind, entry: FileEntry, reason: Status)

  type Listing = map<string, FileEntry>

  /** The entries by name; of two with the same name the later one counts. */
  function ByName(entries: seq<FileEntry>): (listing: Listing)
    ensures forall n :: n in listing ==> listing[n].name == n
  {
    if entries == [] then map[]
    else
      var last := entries[|entries| - 1];
      ByName(entries[..|entries| - 1])[last.name := last]
  }

  function Look(listing: Listing, name: string): Option<FileEntry> {
    if name in listing then Some(listing[name]) else None
  }

  predicate IsReadable(entry: FileEntry) {
    !entry.modified.Unreadable?
  }

  function Millis(entry: FileEntry): int
    requires IsReadable(entry)
  {
    if entry.modified.Missing? then 0 else entry.modified.millis
  }

  /** Comparisons with an unreadable time are false. */
  predicate IsLater(a: FileEntry, b: FileEntry) {
    IsReadable(a) && IsReadable(b) && Millis(a) > Millis(b)
  }

  predicate IsClose(a: FileEntry, b: FileEntry) {
    IsReadable(a) && IsReadable(b) && -2000 < Millis(a) - Millis(b) < 2000
  }

  function ComparisonStatus(local: Option<FileEntry>, remote: Option<FileEntry>): Status {
    if local.None? then RemoteOnly
    else if remote.None? then LocalOnly
    else if local.value.kind != remote.value.kind || local.value.size != remote.value.size then SizeMismatch
    else if IsClose(local.value, remote.value) then Same
    else if IsLater(local.value, remote.value) then LocalNewer
    else RemoteNewer
  }

  function CompareName(name: string, local: Listing, remote: Listing): Compared {
    Compared(name, Look(local, name), Look(remote, name), ComparisonStatus(Look(local, name), Look(remote, name)))
  }

  function CompareNames(names: seq<string>, local: Listing, remote: Listing): (r: seq<Compared>)
    ensures |r| == |names| && forall i :: 0 <= i < |r| ==> r[i] == CompareName(names[i], local, remote)
  {
    if names == [] then [] else [CompareName(names[0], local, remote)] + CompareNames(names[1..], local, remote)
  }

  function EntryNames(entries: seq<FileEntry>): (r: seq<string>)
    ensures |r| == |entries| && forall i :: 0 <= i < |r| ==> r[i] == entries[i].name
  {
    if entries == [] then [] else [entries[0].name] + EntryNames(entries[1..])
  }

  /** The names of either side in order, each once. */
  function AllNames(local: seq<FileEntry>, remote: seq<FileEntry>): seq<string> {
    InsertAll([], EntryNames(local) + EntryNames(remote))
  }

  function CompareDirectories(local: seq<FileEntry>, remote: seq<FileEntry>): seq<Compared> {
    CompareNames(AllNames(local, remote), ByName(local), ByName(remote))
  }

  /** The entry that a mode means to keep on both sides; none means that the name is to go. */
  function Kept(local: Option<FileEntry>, remote: Option<FileEntry>, mode: Mode): Option<FileEntry> {
    match mode
    case UploadMirror => local
    case DownloadMirror => remote
    case TwoWay =>
      if local.None? then remote
      else if remote.None? then local
      else if local.value.kind == remote.value.kind && local.value.size == remote.value.size then
        if IsLater(local.value, remote.value) then local else remote
      else if IsLater(remote.value, local.value) then remote else local
  }

  /** Whether an action is the right one for a name: it carries the kept entry to the side that lacks it, or deletes
      what is on the one side that has the name. */
  ghost predicate Settles(action: Action, item: Compared, mode: Mode) {
    && action.reason == item.status
    && match Kept(item.local, item.remote, mode)
       case Some(entry) =>
         && action.entry == entry
         && ((action.kind == Upload && item.local == Some(entry))
             || (action.kind == Download && item.remote == Some(entry)))
         && (mode == UploadMirror ==> action.kind == Upload)
         && (mode == DownloadMirror ==> action.kind == Download)
       case None =>
         || (mode == UploadMirror && action.kind == DeleteRemote && item.remote == Some(action.entry))
         || (mode == DownloadMirror && action.kind == DeleteLocal && item.local == Some(action.entry))
  }

  /** One action for every name that is not the same, in the order of the comparison. */
  ghost predicate IsPlan(actions: seq<Action>, entries: seq<Compared>, mode: Mode)
    decreases entries
  {
    if entries == [] then actions == []
    else
      var init, last := entries[..|entries| - 1], entries[|entries| - 1];
      if last.status == Same then IsPlan(actions, init, mode)
      else actions != [] && Settles(actions[|actions| - 1], last, mode) && IsPlan(actions[..|actions| - 1], init, mode)
  }

  predicate IsWellFormed(item: Compared) {
    && item.status == ComparisonStatus(item.local, item.remote)
    && (item.local.Some? || item.remote.Some?)
    && (item.local.Some? ==> item.local.value.name == item.name)
    && (item.remote.Some? ==> item.remote.value.name == item.name)
  }

  method PlanSynchronization(entries: seq<Compared>, mode: Mode) returns (actions: seq<Action>)
    requires forall i :: 0 <= i < |entries| ==> IsWellFormed(entries[i])
    ensures IsPlan(actions, entries, mode)
  {
    actions := [];
    for i := 0 to |entries|
      invariant IsPlan(actions, entries[..i], mode)
    {
      var item := entries[i];
      ghost var before := actions;
      if item.status == Same {
      } else if mode == UploadMirror {
        if item.local.Some? {
          actions := actions + [Action(Upload, item.local.value, item.status)];
        } else if item.remote.Some? {
          actions := actions + [Action(DeleteRemote, item.remote.value, item.status)];
        }
      } else if mode == DownloadMirror {
        if item.remote.Some? {
          actions := actions + [Action(Download, item.remote.value, item.status)];
        } else if item.local.Some? {
          actions := actions + [Action(DeleteLocal, item.local.value, item.status)];
        }
      } else if item.local.Some? && item.remote.None? {
        actions := actions + [Action(Upload, item.local.value, item.status)];
      } else if item.remote.Some? && item.local.None? {
        actions := actions + [Action(Download, item.remote.value, item.status)];
      } else if item.local.Some? && item.remote.Some? {
        var remoteWins := item.status == RemoteNewer
                          || (item.status == SizeMismatch && IsLater(item.remote.value, item.local.value));
        actions := actions + [Action(if remoteWins then Download else Upload,
                                     if remoteWins then item.remote.value else item.local.value, item.status)];
      }
      assert entries[..i + 1][..i] == entries[..i];
      assert item.status != Same ==> actions[..|actions| - 1] == before;
    }
    assert entries[..|entries|] == entries;
  }

  // ---------------------------------------------------------------------------------------------
  // Carrying a plan out

  datatype Sides = Sides(local: Listing, remote: Listing)

  /** A transfer makes the entry the same on the other side; a deletion removes its name. */
  function Execute(sides: Sides, action: Action): Sides {
    match action.kind
    case Upload => sides.(remote := sides.remote[action.entry.name := action.entry])
    case Download => sides.(local := sides.local[action.entry.name := action.entry])
    case DeleteLocal => sides.(local := sides.local - {action.entry.name})
    case DeleteRemote => sides.(remote := sides.remote - {action.entry.name})
  }

  function ExecuteAll(sides: Sides, actions: seq<Action>): Sides
    decreases actions
  {
    if actions == [] then sides else ExecuteAll(Execute(sides, actions[0]), actions[1..])
  }

  predicate OnePerName(actions: seq<Action>) {
    forall i, j :: 0 <= i < j < |actions| ==> actions[i].entry.name != actions[j].entry.name
  }

  /** The action about a name does its work whatever the others do, and without one the name stays as it is. */
  lemma {:induction false} ExecutedAt(sides: Sides, actions: seq<Action>, action: Action)
    requires OnePerName(actions) && action in actions
    ensures SettledAt(ExecuteAll(sides, actions), sides, action)
    decreases actions
  {
    var rest := actions[1..];
    var next := Execute(sides, actions[0]);
    RestIsOnePerName(actions, rest);
    if action == actions[0] {
      ExecutedElsewhere(next, rest, action.entry.name);
    } else {
      assert action in rest;
      ExecutedAt(next, rest, action);
      OtherNameStays(sides, actions[0], action);
    }
  }

  /** Under the action's name there is what the action alone would have left there. */
  predicate SettledAt(after: Sides, before: Sides, action: Action) {
    var name := action.entry.name;
    && Look(after.local, name) == Look(Execute(before, action).local, name)
    && Look(after.remote, name) == Look(Execute(before, action).remote, name)
  }

  lemma OtherNameStays(sides: Sides, other: Action, action: Action)
    requires other.entry.name != action.entry.name
    ensures forall after :: SettledAt(after, Execute(sides, other), action) ==> SettledAt(after, sides, action)
  {
  }

  lemma RestIsOnePerName(actions: seq<Action>, rest: seq<Action>)
    requires OnePerName(actions) && actions != [] && rest == actions[1..]
    ensures OnePerName(rest)
    ensures forall i :: 0 <= i < |rest| ==> rest[i].entry.name != actions[0].entry.name
  {
    assert forall i :: 0 <= i < |rest| ==> rest[i] == actions[i + 1];
  }

  lemma {:induction false} ExecutedElsewhere(sides: Sides, actions: seq<Action>, name: string)
    requires forall i :: 0 <= i < |actions| ==> actions[i].entry.name != name
    ensures Look(ExecuteAll(sides, actions).local, name) == Look(sides.local, name)
    ensures Look(ExecuteAll(sides, actions).remote, name) == Look(sides.remote, name)
    decreases actions
  {
    if actions == [] {
    } else {
      ExecutedElsewhere(Execute(sides, actions[0]), actions[1..], name);
    }
  }

  // ---------------------------------------------------------------------------------------------
  // What a plan contains

  lemma NamesOfOneMore(init: seq<FileEntry>, last: FileEntry, entries: seq<FileEntry>)
    requires entries == init + [last]
    ensures EntryNames(entries) == EntryNames(init) + [last.name]
  {
    var names, others := EntryNames(entries), EntryNames(init) + [last.name];
    assert |names| == |others|;
    assert forall i :: 0 <= i < |init| ==> entries[i] == init[i];
  }

  lemma {:induction false} ByNameNames(entries: seq<FileEntry>)
    ensures forall n :: n in ByName(entries) <==> n in EntryNames(entries)
  {
    if entries == [] {
    } else {
      var init, last := entries[..|entries| - 1], entries[|entries| - 1];
      ByNameNames(init);
      NamesOfOneMore(init, last, entries);
    }
  }

  lemma AllNamesAre(local: seq<FileEntry>, remote: seq<FileEntry>)
    ensures IsSorted(AllNames(local, remote))
    ensures forall n :: n in AllNames(local, remote) <==> n in ByName(local) || n in ByName(remote)
  {
    InsertAllIsSorted([], EntryNames(local) + EntryNames(remote));
    ByNameNames(local);
    ByNameNames(remote);
  }

  lemma ItemAt(local: seq<FileEntry>, remote: seq<FileEntry>, i: nat)
    requires i < |CompareDirectories(local, remote)|
    ensures var l, r, item := ByName(local), ByName(remote), CompareDirectories(local, remote)[i];
            && item == CompareName(item.name, l, r) && IsWellFormed(item)
            && (item.name in l || item.name in r)
  {
    AllNamesAre(local, remote);
    assert AllNames(local, remote)[i] in AllNames(local, remote);
  }

  lemma FindName(local: seq<FileEntry>, remote: seq<FileEntry>, name: string) returns (i: nat)
    requires name in ByName(local) || name in ByName(remote)
    ensures i < |CompareDirectories(local, remote)|
    ensures CompareDirectories(local, remote)[i] == CompareName(name, ByName(local), ByName(remote))
  {
    AllNamesAre(local, remote);
    assert name in AllNames(local, remote);
    i :| 0 <= i < |AllNames(local, remote)| && AllNames(local, remote)[i] == name;
  }

  /** The comparison lists every name of either side once, in order, with its two entries and their status. */
  lemma ComparisonIsComplete(local: seq<FileEntry>, remote: seq<FileEntry>)
    ensures var l, r, c := ByName(local), ByName(remote), CompareDirectories(local, remote);
            && (forall i, j :: 0 <= i < j < |c| ==> Less(c[i].name, c[j].name))
            && (forall i :: 0 <= i < |c| ==> IsWellFormed(c[i]) && c[i] == CompareName(c[i].name, l, r))
            && (forall n :: n in l || n in r ==> CompareName(n, l, r) in c)
  {
    var l, r, c := ByName(local), ByName(remote), CompareDirectories(local, remote);
    AllNamesAre(local, remote);
    forall i | 0 <= i < |c| ensures IsWellFormed(c[i]) && c[i] == CompareName(c[i].name, l, r) {
      ItemAt(local, remote, i);
    }
    forall n | n in l || n in r ensures CompareName(n, l, r) in c {
      var i := FindName(local, remote, n);
    }
  }

  lemma {:induction false} PlanHas(actions: seq<Action>, entries: seq<Compared>, mode: Mode, i: nat) returns (k: nat)
    requires IsPlan(actions, entries, mode) && i < |entries| && entries[i].status != Same
    ensures k < |actions| && Settles(actions[k], entries[i], mode)
    decreases entries
  {
    var init, last := entries[..|entries| - 1], entries[|entries| - 1];
    if i == |init| {
      k := |actions| - 1;
    } else if last.status == Same {
      k := PlanHas(actions, init, mode, i);
    } else {
      k := PlanHas(actions[..|actions| - 1], init, mode, i);
    }
  }

  lemma {:induction false} PlanFrom(actions: seq<Action>, entries: seq<Compared>, mode: Mode, k: nat) returns (i: nat)
    requires IsPlan(actions, entries, mode) && k < |actions|
    ensures i < |entries| && entries[i].status != Same && Settles(actions[k], entries[i], mode)
    decreases entries
  {
    var init, last := entries[..|entries| - 1], entries[|entries| - 1];
    if last.status == Same {
      i := PlanFrom(actions, init, mode, k);
    } else if k == |actions| - 1 {
      i := |init|;
    } else {
      i := PlanFrom(actions[..|actions| - 1], init, mode, k);
    }
  }

  lemma SettlesItsName(action: Action, item: Compared, mode: Mode)
    requires Settles(action, item, mode) && IsWellFormed(item)
    ensures action.entry.name == item.name
  {
  }

  /** A plan has its actions in the order of the names, so never two for one name. */
  lemma {:induction false} PlanIsOrdered(actions: seq<Action>, entries: seq<Compared>, mode: Mode, k: nat, m: nat)
    requires IsPlan(actions, entries, mode) && k < m < |actions|
    requires forall i :: 0 <= i < |entries| ==> IsWellFormed(entries[i])
    requires forall i, j :: 0 <= i < j < |entries| ==> Less(entries[i].name, entries[j].name)
    ensures Less(actions[k].entry.name, actions[m].entry.name)
    decreases entries
  {
    var init, last := entries[..|entries| - 1], entries[|entries| - 1];
    if last.status == Same {
      PlanIsOrdered(actions, init, mode, k, m);
    } else if m < |actions| - 1 {
      PlanIsOrdered(actions[..|actions| - 1], init, mode, k, m);
    } else {
      var i := PlanFrom(actions[..|actions| - 1], init, mode, k);
      SettlesItsName(actions[k], entries[i], mode);
      SettlesItsName(actions[m], last, mode);
    }
  }

  lemma PlanIsOnePerName(local: seq<FileEntry>, remote: seq<FileEntry>, mode: Mode, actions: seq<Action>)
    requires IsPlan(actions, CompareDirectories(local, remote), mode)
    ensures OnePerName(actions)
  {
    ComparisonIsComplete(local, remote);
    forall k, m | 0 <= k < m < |actions| ensures actions[k].entry.name != actions[m].entry.name {
      PlanIsOrdered(actions, CompareDirectories(local, remote), mode, k, m);
      LessIrreflexive(actions[k].entry.name);
    }
  }

  lemma OrderKeepsPlan(actions: seq<Action>, order: seq<Action>)
    requires multiset(order) == multiset(actions)
    requires OnePerName(actions)
    ensures OnePerName(order) && |order| == |actions|
    ensures forall a :: a in order <==> a in actions
  {
    assert |order| == |multiset(order)| == |multiset(actions)| == |actions|;
    forall a ensures a in order <==> a in actions {
      assert a in order <==> a in multiset(order);
    }
    forall i, j | 0 <= i < j < |order| ensures order[i].entry.name != order[j].entry.name {
      assert order[i] in actions && order[j] in actions;
      var k, m :| 0 <= k < |actions| && 0 <= m < |actions| && actions[k] == order[i] && actions[m] == order[j];
      if k == m {
        Twice(order, i, j);
        Once(actions, k);
      }
    }
  }

  lemma Twice(xs: seq<Action>, i: nat, j: nat)
    requires i < j < |xs| && xs[i] == xs[j]
    ensures multiset(xs)[xs[i]] >= 2
  {
    assert xs == xs[..j] + [xs[j]] + xs[j + 1..];
    assert xs[i] in xs[..j];
  }

  lemma Once(xs: seq<Action>, k: nat)
    requires OnePerName(xs) && k < |xs|
    ensures multiset(xs)[xs[k]] == 1
  {
    var x := xs[k];
    assert xs == xs[..k] + [x] + xs[k + 1..];
    assert x !in xs[..k];
    assert x !in xs[k + 1..];
  }

  /** What the two sides hold under a name once the plan is carried out. */
  predicate IsSettled(name: string, before: Sides, after: Sides, mode: Mode) {
    var local, remote := Look(before.local, name), Look(before.remote, name);
    if (local.None? && remote.None?) || ComparisonStatus(local, remote) == Same then
      Look(after.local, name) == local && Look(after.remote, name) == remote
    else
      Look(after.local, name) == Kept(local, remote, mode) == Look(after.remote, name)
  }

  lemma SettledByAction(n: string, before: Sides, order: seq<Action>, action: Action, item: Compared, mode: Mode)
    requires OnePerName(order) && action in order
    requires IsWellFormed(item) && item == CompareName(n, before.local, before.remote) && item.status != Same
    requires Settles(action, item, mode)
    ensures IsSettled(n, before, ExecuteAll(before, order), mode)
  {
    SettlesItsName(action, item, mode);
    ExecutedAt(before, order, action);
  }

  /** A name without an item to settle is in none of the actions. */
  lemma NotNamed(local: seq<FileEntry>, remote: seq<FileEntry>, mode: Mode, actions: seq<Action>, n: string, k: nat)
    requires IsPlan(actions, CompareDirectories(local, remote), mode) && k < |actions|
    requires CompareName(n, ByName(local), ByName(remote)).status == Same
             || (n !in ByName(local) && n !in ByName(remote))
    ensures actions[k].entry.name != n
  {
    var i := PlanFrom(actions, CompareDirectories(local, remote), mode, k);
    ItemAt(local, remote, i);
    SettlesItsName(actions[k], CompareDirectories(local, remote)[i], mode);
  }

  /** Whatever order the actions of a plan are carried out in, every name ends up settled. */
  lemma PlanSettles(local: seq<FileEntry>, remote: seq<FileEntry>, mode: Mode, actions: seq<Action>, order: seq<Action>,
                    n: string)
    requires IsPlan(actions, CompareDirectories(local, remote), mode)
    requires multiset(order) == multiset(actions)
    ensures var before := Sides(ByName(local), ByName(remote));
            IsSettled(n, before, ExecuteAll(before, order), mode)
  {
    var before := Sides(ByName(local), ByName(remote));
    var item := CompareName(n, before.local, before.remote);
    PlanIsOnePerName(local, remote, mode, actions);
    OrderKeepsPlan(actions, order);
    if item.status == Same || (n !in before.local && n !in before.remote) {
      forall j | 0 <= j < |order| ensures order[j].entry.name != n {
        assert order[j] in actions;
        var k :| 0 <= k < |actions| && actions[k] == order[j];
        NotNamed(local, remote, mode, actions, n, k);
      }
      ExecutedElsewhere(before, order, n);
    } else {
      var i := FindName(local, remote, n);
      ItemAt(local, remote, i);
      var k := PlanHas(actions, CompareDirectories(local, remote), mode, i);
      assert actions[k] in order;
      SettledByAction(n, before, order, actions[k], item, mode);
    }
  }

  // ---------------------------------------------------------------------------------------------
  // Main results

  predicate IsFine(name: string, after: Sides) {
    (name in after.local || name in after.remote) ==>
      ComparisonStatus(Look(after.local, name), Look(after.remote, name)) == Same
  }

  /** What is kept under a name has a readable time. */
  predicate KeepsReadableAt(name: string, local: Listing, remote: Listing, mode: Mode) {
    name in local || name in remote ==>
      var kept := Kept(Look(local, name), Look(remote, name), mode);
      kept.Some? ==> IsReadable(kept.value)
  }

  ghost predicate KeepsReadable(local: Listing, remote: Listing, mode: Mode) {
    forall n :: KeepsReadableAt(n, local, remote, mode)
  }

  lemma SettledIsFine(local: seq<FileEntry>, remote: seq<FileEntry>, mode: Mode, actions: seq<Action>,
                      order: seq<Action>)
    requires IsPlan(actions, CompareDirectories(local, remote), mode)
    requires multiset(order) == multiset(actions)
    ensures (forall n :: IsFine(n, ExecuteAll(Sides(ByName(local), ByName(remote)), order)))
            <==> KeepsReadable(ByName(local), ByName(remote), mode)
  {
    var before := Sides(ByName(local), ByName(remote));
    var after := ExecuteAll(before, order);
    if KeepsReadable(before.local, before.remote, mode) {
      forall n ensures IsFine(n, after) {
        FineAt(local, remote, mode, actions, order, n);
        assert KeepsReadableAt(n, before.local, before.remote, mode);
      }
    } else {
      var n :| !KeepsReadableAt(n, before.local, before.remote, mode);
      FineAt(local, remote, mode, actions, order, n);
      assert !IsFine(n, after);
    }
  }

  lemma FineAt(local: seq<FileEntry>, remote: seq<FileEntry>, mode: Mode, actions: seq<Action>, order: seq<Action>,
               n: string)
    requires IsPlan(actions, CompareDirectories(local, remote), mode)
    requires multiset(order) == multiset(actions)
    ensures IsFine(n, ExecuteAll(Sides(ByName(local), ByName(remote)), order))
            <==> KeepsReadableAt(n, ByName(local), ByName(remote), mode)
  {
    PlanSettles(local, remote, mode, actions, order, n);
  }

  lemma EmptyPlan(actions: seq<Action>, entries: seq<Compared>, mode: Mode)
    requires IsPlan(actions, entries, mode)
    ensures actions == [] <==> forall i :: 0 <= i < |entries| ==> entries[i].status == Same
  {
    if actions != [] {
      var i := PlanFrom(actions, entries, mode, 0);
    } else {
      forall i | 0 <= i < |entries| ensures entries[i].status == Same {
        if entries[i].status != Same {
          var k := PlanHas(actions, entries, mode, i);
        }
      }
    }
  }

  lemma AllFine(local: seq<FileEntry>, remote: seq<FileEntry>)
    ensures var next := CompareDirectories(local, remote);
            (forall i :: 0 <= i < |next| ==> next[i].status == Same)
            <==> forall n :: IsFine(n, Sides(ByName(local), ByName(remote)))
  {
    var l, r, next := ByName(local), ByName(remote), CompareDirectories(local, remote);
    if forall i :: 0 <= i < |next| ==> next[i].status == Same {
      forall n ensures IsFine(n, Sides(l, r)) {
        if n in l || n in r {
          var i := FindName(local, remote, n);
        }
      }
    } else {
      var i :| 0 <= i < |next| && next[i].status != Same;
      ItemAt(local, remote, i);
      assert !IsFine(next[i].name, Sides(l, r));
    }
  }

  /** After a plan has been carried out, in any order, the next comparison finds nothing but equal entries and the
      next plan is empty, exactly when the kept entries have readable times: an entry whose time does not parse
      is never equal to anything, not even to its own copy. */
  lemma SynchronizingOnceIsEnough(local: seq<FileEntry>, remote: seq<FileEntry>, mode: Mode,
                                  actions: seq<Action>, order: seq<Action>,
                                  nextLocal: seq<FileEntry>, nextRemote: seq<FileEntry>, nextActions: seq<Action>)
    requires IsPlan(actions, CompareDirectories(local, remote), mode)
    requires multiset(order) == multiset(actions)
    requires Sides(ByName(nextLocal), ByName(nextRemote)) == ExecuteAll(Sides(ByName(local), ByName(remote)), order)
    requires IsPlan(nextActions, CompareDirectories(nextLocal, nextRemote), mode)
    ensures var next := CompareDirectories(nextLocal, nextRemote);
            (forall i :: 0 <= i < |next| ==> next[i].status == Same)
                <==> KeepsReadable(ByName(local), ByName(remote), mode)
    ensures nextActions == [] <==> KeepsReadable(ByName(local), ByName(remote), mode)
  {
    SettledIsFine(local, remote, mode, actions, order);
    AllFine(nextLocal, nextRemote);
    EmptyPlan(nextActions, CompareDirectories(nextLocal, nextRemote), mode);
  }

  lemma {:induction false} OneSideStays(sides: Sides, actions: seq<Action>, mode: Mode)
    requires mode != TwoWay
    requires forall k :: 0 <= k < |actions| ==>
               if mode == UploadMirror then actions[k].kind == Upload || actions[k].kind == DeleteRemote
               else actions[k].kind == Download || actions[k].kind == DeleteLocal
    ensures mode == UploadMirror ==> ExecuteAll(sides, actions).local == sides.local
    ensures mode == DownloadMirror ==> ExecuteAll(sides, actions).remote == sides.remote
    decreases actions
  {
    if actions == [] {
    } else {
      OneSideStays(Execute(sides, actions[0]), actions[1..], mode);
    }
  }

  function Mirrored(status: Status): Status {
    match status
    case LocalOnly => RemoteOnly
    case RemoteOnly => LocalOnly
    case LocalNewer => RemoteNewer
    case RemoteNewer => LocalNewer
    case _ => status
  }

  predicate HasUnreadable(a: FileEntry, b: FileEntry) {
    a.kind == b.kind && a.size == b.size && (!IsReadable(a) || !IsReadable(b))
  }

  /** The time that a stamp stands for; a missing one stands for the beginning of time, an unreadable one for none. */
  predicate StandsFor(stamp: Stamp, millis: int) {
    stamp == At(millis) || (stamp == Missing && millis == 0)
  }

  /** The local entry is at least so much later than the remote one. */
  ghost predicate IsAheadBy(a: FileEntry, b: FileEntry, least: int) {
    exists s, t :: StandsFor(a.modified, s) && StandsFor(b.modified, t) && s - t >= least
  }

  lemma AheadByMillis(a: FileEntry, b: FileEntry, least: int)
    ensures IsAheadBy(a, b, least) <==> IsReadable(a) && IsReadable(b) && Millis(a) - Millis(b) >= least
  {
    if IsReadable(a) && IsReadable(b) {
      assert StandsFor(a.modified, Millis(a)) && StandsFor(b.modified, Millis(b));
    }
  }

  /** When two entries count as the same, and when one of them as newer: two seconds make the difference, in either
      direction, between entries of one kind and size. What cannot be compared counts as newer on the remote side. */
  lemma StatusByTimes(a: FileEntry, b: FileEntry)
    ensures ComparisonStatus(Some(a), Some(b)) == SizeMismatch <==> a.kind != b.kind || a.size != b.size
    ensures a.kind == b.kind && a.size == b.size ==>
              && (ComparisonStatus(Some(a), Some(b)) == Same
                  <==> IsAheadBy(a, b, -1_999) && IsAheadBy(b, a, -1_999))
              && (ComparisonStatus(Some(a), Some(b)) == LocalNewer <==> IsAheadBy(a, b, 2_000))
              && (ComparisonStatus(Some(a), Some(b)) == RemoteNewer
                  <==> IsAheadBy(b, a, 2_000) || a.modified == Unreadable || b.modified == Unreadable)
    ensures ComparisonStatus(Some(a), None) == LocalOnly && ComparisonStatus(None, Some(b)) == RemoteOnly
  {
    AheadByMillis(a, b, -1_999);
    AheadByMillis(b, a, -1_999);
    AheadByMillis(a, b, 2_000);
    AheadByMillis(b, a, 2_000);
  }

  /** What each mode keeps of two entries: a mirror its own side, and both ways the later one. Of entries of one kind
      and size that are equally old, or cannot be compared, that is the remote one, and of others the local one. */
  lemma KeptByMode(a: FileEntry, b: FileEntry)
    ensures Kept(Some(a), Some(b), UploadMirror) == Some(a) && Kept(Some(a), Some(b), DownloadMirror) == Some(b)
    ensures Kept(Some(a), None, UploadMirror) == Some(a) && Kept(None, Some(b), UploadMirror) == None
    ensures Kept(Some(a), None, DownloadMirror) == None && Kept(None, Some(b), DownloadMirror) == Some(b)
    ensures Kept(Some(a), None, TwoWay) == Some(a) && Kept(None, Some(b), TwoWay) == Some(b)
    ensures a.kind == b.kind && a.size == b.size ==>
              Kept(Some(a), Some(b), TwoWay) == Some(if IsAheadBy(a, b, 1) then a else b)
    ensures a.kind != b.kind || a.size != b.size ==>
              Kept(Some(a), Some(b), TwoWay) == Some(if IsAheadBy(b, a, 1) then b else a)
  {
    AheadByMillis(a, b, 1);
    AheadByMillis(b, a, 1);
  }

  /** Exchanging the sides exchanges the answer, except for otherwise equal entries with an unreadable time: for these
      the remote side counts as newer whichever way round they are. Newer means at least two seconds. */
  lemma ComparisonMirrors(a: FileEntry, b: FileEntry)
    ensures ComparisonStatus(Some(b), Some(a)) == Mirrored(ComparisonStatus(Some(a), Some(b))) <==> !HasUnreadable(a, b)
    ensures ComparisonStatus(Some(a), Some(b)) == LocalNewer ==>
              IsReadable(a) && IsReadable(b) && Millis(a) >= Millis(b) + 2000
    ensures ComparisonStatus(Some(a), Some(b)) == RemoteNewer && !HasUnreadable(a, b) ==>
              IsReadable(a) && IsReadable(b) && Millis(b) >= Millis(a) + 2000
  {
  }

  /** A mirror changes the side it writes to and nothing on the other. */
  lemma MirrorsChangeOneSide(local: seq<FileEntry>, remote: seq<FileEntry>, mode: Mode, actions: seq<Action>,
                             order: seq<Action>)
    requires IsPlan(actions, CompareDirectories(local, remote), mode)
    requires multiset(order) == multiset(actions)
    ensures var before := Sides(ByName(local), ByName(remote));
            && (mode == UploadMirror ==> ExecuteAll(before, order).local == before.local)
            && (mode == DownloadMirror ==> ExecuteAll(before, order).remote == before.remote)
  {
    PlanIsOnePerName(local, remote, mode, actions);
    OrderKeepsPlan(actions, order);
    if mode != TwoWay {
      forall j | 0 <= j < |order|
        ensures mode == UploadMirror ==> order[j].kind == Upload || order[j].kind == DeleteRemote
        ensures mode == DownloadMirror ==> order[j].kind == Download || order[j].kind == DeleteLocal
      {
        assert order[j] in actions;
        var k :| 0 <= k < |actions| && actions[k] == order[j];
        var i := PlanFrom(actions, CompareDirectories(local, remote), mode, k);
      }
      OneSideStays(Sides(ByName(local), ByName(remote)), order, mode);
    }
  }

  /** Two-way synchronization keeps every name, puts nothing on a side that was not on one of them under that
      name, and never replaces an entry by an older one. */
  lemma TwoWayLosesNothing(local: seq<FileEntry>, remote: seq<FileEntry>, actions: seq<Action>, order: seq<Action>)
    requires IsPlan(actions, CompareDirectories(local, remote), TwoWay)
    requires multiset(order) == multiset(actions)
    ensures var l, r := ByName(local), ByName(remote);
            var after := ExecuteAll(Sides(l, r), order);
            && (forall n :: n in after.local <==> n in l || n in r)
            && (forall n :: n in after.remote <==> n in l || n in r)
            && (forall n :: n in l ==>
                after.local[n] == l[n] || (n in r && after.local[n] == r[n] && !IsLater(l[n], r[n])))
            && (forall n :: n in r ==>
                after.remote[n] == r[n] || (n in l && after.remote[n] == l[n] && !IsLater(r[n], l[n])))
  {
    var l, r := ByName(local), ByName(remote);
    var after := ExecuteAll(Sides(l, r), order);
    forall n
      ensures n in after.local <==> n in l || n in r
      ensures n in after.remote <==> n in l || n in r
      ensures n in l ==> after.local[n] == l[n] || (n in r && after.local[n] == r[n] && !IsLater(l[n], r[n]))
      ensures n in r ==> after.remote[n] == r[n] || (n in l && after.remote[n] == l[n] && !IsLater(r[n], l[n]))
    {
      PlanSettles(local, remote, TwoWay, actions, order, n);
    }
  }
}
