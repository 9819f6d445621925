/** The no-replace rename helper, from its checked paths to its exit, with other processes changing the file system
    between any two system calls. */
module RenameHelper {
  import opened Common
  import opened RenamePaths
  import opened RenameWalk

  /** A name in a directory. */
  datatype Place = Place(directory: Node, name: Bytes)

  /** The entries of all directories, and what is known of every file. */
  datatype World = World(entries: map<Place, Node>, nodes: map<Node, Stat>)

  /** What other processes do before the n-th system call: anything. */
  type Interference = (nat, World) -> World

  /** The entry `from` becomes the entry `to`, which did not exist; nothing else changes. */
  ghost predicate MovedTo(before: World, after: World, from: Place, to: Place) {
    && from in before.entries && to !in before.entries
    && after == before.(entries := (before.entries - {from})[to := before.entries[from]])
  }

  ghost function Pick(entries: map<Place, Node>): (name: Place)
    requires entries != map[]
    ensures name in entries
  {
    var name :| name in entries;
    name
  }

  /** The files named in a directory, with multiplicity. */
  ghost function Named(entries: map<Place, Node>): multiset<Node>
    decreases |entries|
  {
    if entries == map[] then multiset{}
    else
      var name := Pick(entries);
      Named(entries - {name}) + multiset{entries[name]}
  }

  lemma NamedPick(entries: map<Place, Node>)
    requires entries != map[]
    ensures Named(entries) == Named(entries - {Pick(entries)}) + multiset{entries[Pick(entries)]}
  {}

  lemma {:induction false} NamedWithout(entries: map<Place, Node>, name: Place)
    requires name in entries
    ensures Named(entries) == Named(entries - {name}) + multiset{entries[name]}
    decreases |entries|
  {
    hide Named;
    NamedPick(entries);
    var chosen := Pick(entries);
    if chosen != name {
      var without, other := entries - {chosen}, entries - {name};
      NamedWithout(without, name);
      NamedWithout(other, chosen);
      assert without - {name} == other - {chosen};
    }
  }

  /** A move keeps every other entry, replaces none, and neither loses nor duplicates a file. */
  lemma MoveConserves(before: World, after: World, from: Place, to: Place)
    requires MovedTo(before, after, from, to)
    ensures Named(after.entries) == Named(before.entries)
    ensures forall name :: name in before.entries && name != from ==>
              name in after.entries && after.entries[name] == before.entries[name]
    ensures to in after.entries && after.entries[to] == before.entries[from]
  {
    hide Named;
    NamedWithout(before.entries, from);
    NamedWithout(after.entries, to);
    assert after.entries - {to} == before.entries - {from};
  }

  type History = seq<(World, World)>

  /** The world after the calls in `history`. */
  ghost function Latest(start: World, history: History): World {
    if history == [] then start else history[|history| - 1].1
  }

  /** Between two calls only the others changed the world. */
  ghost predicate Chained(others: Interference, start: World, history: History) {
    forall k :: 0 <= k < |history| ==> history[k].0 == others(k, Latest(start, history[..k]))
  }

  lemma ChainOn(others: Interference, start: World, history: History, after: World)
    requires Chained(others, start, history)
    ensures Chained(others, start, history + [(others(|history|, Latest(start, history)), after)])
  {
    var longer := history + [(others(|history|, Latest(start, history)), after)];
    forall k | 0 <= k < |longer| ensures longer[k].0 == others(k, Latest(start, longer[..k])) {
      assert longer[..k] == history[..k];
      if k == |history| { assert history[..k] == history; }
    }
  }

  class FileSystem {
    const others: Interference
    const faults: nat -> Option<Errno>
    var world: World
    var clock: nat
    // The world before and after every system call of the helper.
    ghost var history: History
    ghost const start: World

    constructor (others: Interference, faults: nat -> Option<Errno>, world: World)
      ensures Valid() && this.others == others && this.faults == faults && this.world == world && start == world
      ensures history == []
    {
      this.others, this.faults := others, faults;
      this.world, clock := world, 0;
      history, start := [], world;
    }

    ghost predicate Valid() reads this {
      clock == |history| && world == Latest(start, history) && Chained(others, start, history)
    }

    /** A call that changes nothing, or fails. */
    method Call() returns (fault: Option<Errno>)
      requires Valid()
      modifies this
      ensures Valid() && world == others(old(clock), old(world)) && fault == faults(old(clock))
      ensures history == old(history) + [(world, world)]
    {
      hide Chained;
      fault := faults(clock);
      ChainOn(others, start, history, others(clock, world));
      world := others(clock, world);
      history := history + [(world, world)];
      clock := clock + 1;
    }

    method Open(name: Place) returns (r: Result<Node>)
      requires Valid()
      modifies this
      ensures Valid() && world == others(old(clock), old(world))
      ensures history == old(history) + [(world, world)]
      ensures r.Ok? <==> faults(old(clock)) == None && name in world.entries
      ensures r.Ok? ==> r.value == world.entries[name]
      ensures r.Error? ==> r.errno == if faults(old(clock)).Some? then faults(old(clock)).value else ENOENT
    {
      var fault := Call();
      if fault.Some? { return Error(fault.value); }
      if name !in world.entries { return Error(ENOENT); }
      r := Ok(world.entries[name]);
    }

    method FStat(node: Node) returns (r: Result<Stat>)
      requires Valid()
      modifies this
      ensures Valid() && world == others(old(clock), old(world))
      ensures history == old(history) + [(world, world)]
      ensures r.Ok? <==> faults(old(clock)) == None && node in world.nodes
      ensures r.Ok? ==> r.value == world.nodes[node]
    {
      var fault := Call();
      if fault.Some? { return Error(fault.value); }
      if node !in world.nodes { return Error(Unexpected); }
      r := Ok(world.nodes[node]);
    }

    /** The exclusive rename of the kernel: it moves, or fails and changes nothing. */
    method RenameExclusive(from: Place, to: Place) returns (r: Option<Errno>)
      requires Valid()
      modifies this
      ensures Valid() && history == old(history) + [(others(old(clock), old(world)), world)]
      ensures var before := others(old(clock), old(world));
              && (r == None ==> MovedTo(before, world, from, to))
              && (r.Some? ==> world == before)
              && (r == None <==> faults(old(clock)) == None && from in before.entries && to !in before.entries)
              && (faults(old(clock)).Some? ==> r == faults(old(clock)))
              && (faults(old(clock)) == None && from !in before.entries ==> r == Some(ENOENT))
              && (faults(old(clock)) == None && from in before.entries && to in before.entries ==> r == Some(EEXIST))
    {
      hide Chained;
      r := faults(clock);
      var before := others(clock, world);
      if r == None {
        if from !in before.entries { r := Some(ENOENT); }
        else if to in before.entries { r := Some(EEXIST); }
      }
      var after := if r == None then before.(entries := (before.entries - {from})[to := before.entries[from]]) else before;
      ChainOn(others, start, history, after);
      history := history + [(before, after)];
      world := after;
      clock := clock + 1;
    }
  }

  datatype CommandLine = CommandLine(
    sourceName: Bytes, destinationName: Bytes, owner: nat, device: nat, inode: nat, size: nat, mtimeNanoseconds: nat)

  /** The same once the parent directory is known. */
  datatype Arguments = Arguments(
    source: Place, destination: Place, owner: nat, device: nat, inode: nat, size: nat, mtimeNanoseconds: nat)

  function In(c: CommandLine, directory: Node): Arguments {
    Arguments(Place(directory, c.sourceName), Place(directory, c.destinationName), c.owner, c.device, c.inode, c.size,
              c.mtimeNanoseconds)
  }

  predicate ValidFile(info: Stat, owner: nat) {
    info.kind == Regular && info.uid == owner && info.links == 1 && !info.writableByOthers && !info.setId
  }

  predicate ValidSource(info: Stat, a: Arguments, boundaryDevice: nat) {
    && ValidFile(info, a.owner) && info.device == boundaryDevice && Pinned(info, a)
  }

  /** The file is the one named on the command line by device, inode, size and time. */
  predicate Pinned(info: Stat, a: Arguments) {
    info.device == a.device && info.inode == a.inode && info.size == a.size && MtimeNanoseconds(info) == a.mtimeNanoseconds
  }

  predicate ValidDestination(info: Stat, expected: Stat, owner: nat) {
    && ValidFile(info, owner) && info.device == expected.device && info.inode == expected.inode
    && info.size == expected.size && MtimeNanoseconds(info) == MtimeNanoseconds(expected)
  }

  /** What the pinned file is, field by field: a regular file of the owner with one link, not writable by others and without
      set-id bits, with the device, inode, size and time of the command line. */
  ghost predicate IsPinnedFile(info: Stat, a: Arguments) {
    && info.kind == Regular && info.uid == a.owner && info.links == 1 && !info.writableByOthers && !info.setId
    && info.device == a.device && info.inode == a.inode && info.size == a.size
    && info.seconds * 1_000_000_000 + info.nanoseconds == a.mtimeNanoseconds
  }

  /** The rename is the seventh call after the parent directory is open. */
  const RENAME_CALL: nat := 6
  const CALLS: nat := 11

  ghost predicate Unmoved(history: History) { forall k :: 0 <= k < |history| ==> history[k].1 == history[k].0 }

  /** Every call but the rename leaves the world alone, and the rename replaces nothing. */
  ghost predicate OnlyMoves(history: History, a: Arguments) {
    forall k :: 0 <= k < |history| ==>
      history[k].1 == history[k].0
      || (k == RENAME_CALL && MovedTo(history[k].0, history[k].1, a.source, a.destination))
  }

  /** What success means: the rename moved an entry to the destination, and after it the destination name was opened
      and the file behind it had the pinned device, inode, size and time. */
  ghost predicate Succeeded(history: History, a: Arguments) {
    && |history| > RENAME_CALL + 2
    && MovedTo(history[RENAME_CALL].0, history[RENAME_CALL].1, a.source, a.destination)
    && a.destination in history[RENAME_CALL + 1].0.entries
    && var node := history[RENAME_CALL + 1].0.entries[a.destination];
       && node in history[RENAME_CALL + 2].0.nodes
       && IsPinnedFile(history[RENAME_CALL + 2].0.nodes[node], a)
  }

  /** The exclusive rename as a function; it changes nothing where it cannot move. */
  function Moved(w: World, a: Arguments): World {
    if a.source in w.entries && a.destination !in w.entries
    then w.(entries := (w.entries - {a.source})[a.destination := w.entries[a.source]]) else w
  }

  /** The world after `n` calls of a helper that gets that far. */
  ghost function After(others: Interference, start: World, a: Arguments, n: nat): World
    decreases n, 0
  {
    if n == 0 then start
    else if n - 1 == RENAME_CALL then Moved(Seen(others, start, a, n - 1), a)
    else Seen(others, start, a, n - 1)
  }

  /** What the call number `n` finds: the others have had their turn. */
  ghost function Seen(others: Interference, start: World, a: Arguments, n: nat): World
    decreases n, 1
  {
    others(n, After(others, start, a, n))
  }

  /** The source opens, and both checks of what was opened find the pinned file. */
  ghost predicate SourceSeen(others: Interference, start: World, a: Arguments, device: nat) {
    && a.source in Seen(others, start, a, 0).entries
    && var node := Seen(others, start, a, 0).entries[a.source];
       && node in Seen(others, start, a, 1).nodes && ValidSource(Seen(others, start, a, 1).nodes[node], a, device)
       && node in Seen(others, start, a, 2).nodes && ValidSource(Seen(others, start, a, 2).nodes[node], a, device)
  }

  ghost predicate AbsentSeen(others: Interference, faults: nat -> Option<Errno>, start: World, a: Arguments) {
    faults(3) == Some(ENOENT) || (faults(3) == None && a.destination !in Seen(others, start, a, 3).entries)
  }

  ghost predicate MovedSeen(others: Interference, start: World, a: Arguments) {
    && a.destination in Seen(others, start, a, 7).entries
    && var node := Seen(others, start, a, 7).entries[a.destination];
       && node in Seen(others, start, a, 8).nodes && ValidFile(Seen(others, start, a, 8).nodes[node], a.owner)
       && Pinned(Seen(others, start, a, 8).nodes[node], a)
  }

  /** What it takes to succeed, whatever the others do: at its own moment, every call finds what it needs. */
  ghost predicate Goes(others: Interference, faults: nat -> Option<Errno>, start: World, a: Arguments, device: nat) {
    && (forall k :: 0 <= k < CALLS && k != 3 && k != 5 ==> faults(k) == None)
    && SourceSeen(others, start, a, device) && AbsentSeen(others, faults, start, a)
    && a.source in Seen(others, start, a, 6).entries && a.destination !in Seen(others, start, a, 6).entries
    && MovedSeen(others, start, a)
  }

  /** Nobody disturbs and nothing fails. */
  ghost predicate Quiet(others: Interference, faults: nat -> Option<Errno>) {
    (forall k: nat, w: World :: others(k, w) == w) && (forall k: nat :: faults(k) == None)
  }

  ghost predicate Tracking(fs: FileSystem, a: Arguments)
    reads fs
  {
    fs.Valid() && fs.world == After(fs.others, fs.start, a, fs.clock)
  }

  lemma AfterCall(others: Interference, start: World, a: Arguments, n: nat)
    requires n != RENAME_CALL
    ensures After(others, start, a, n + 1) == Seen(others, start, a, n) == others(n, After(others, start, a, n))
  {}

  /** The run gets as far as the rename itself. */
  ghost predicate ReachesRename(others: Interference, faults: nat -> Option<Errno>, start: World, a: Arguments, device: nat) {
    && faults(0) == None && faults(1) == None && faults(2) == None && faults(4) == None
    && SourceSeen(others, start, a, device) && AbsentSeen(others, faults, start, a)
  }

  /** A destination is in the way: when it is looked for, or when the file is moved. */
  ghost predicate Blocked(others: Interference, faults: nat -> Option<Errno>, start: World, a: Arguments, device: nat,
                          parentPasses: bool) {
    || (&& faults(0) == None && faults(1) == None && faults(2) == None && faults(3) == None
        && SourceSeen(others, start, a, device) && a.destination in Seen(others, start, a, 3).entries)
    || (&& ReachesRename(others, faults, start, a, device) && parentPasses && faults(6) == None
        && a.source in Seen(others, start, a, 6).entries && a.destination in Seen(others, start, a, 6).entries)
  }

  /** What is opened at the source is not the pinned file, or not on the boundary's device. */
  ghost predicate OtherFile(others: Interference, start: World, a: Arguments, device: nat) {
    && a.source in Seen(others, start, a, 0).entries
    && var node := Seen(others, start, a, 0).entries[a.source];
       && node in Seen(others, start, a, 1).nodes
       && !(&& IsPinnedFile(Seen(others, start, a, 1).nodes[node], a)
            && Seen(others, start, a, 1).nodes[node].device == device)
  }

  /** What some failures are reported as, whatever the others do. */
  ghost predicate Reported(others: Interference, faults: nat -> Option<Errno>, start: World, a: Arguments, device: nat,
                           parentPasses: bool, failure: Option<Failure>) {
    && (Blocked(others, faults, start, a, device, parentPasses) ==> failure == Some(DestinationExists))
    && (ReachesRename(others, faults, start, a, device) && parentPasses && faults(6).Some? ==>
          faults(6).value in {ENOTSUP, EOPNOTSUPP, EINVAL} ==> failure == Some(UnsupportedFilesystem))
    && (ReachesRename(others, faults, start, a, device) && parentPasses && faults(6) == None ==>
          a.source !in Seen(others, start, a, 6).entries ==> failure == Some(InvalidInput))
    && (faults(0) == None && a.source !in Seen(others, start, a, 0).entries ==> failure == Some(InvalidInput))
    && (faults(0) == None && faults(1) == None && OtherFile(others, start, a, device) ==> failure == Some(InvalidInput))
  }

  /** Checks the opened source twice. */
  method CheckSource(fs: FileSystem, node: Node, a: Arguments, device: nat) returns (failure: Option<Failure>, info: Option<Stat>)
    requires Tracking(fs, a) && fs.clock == 1 && Unmoved(fs.history)
    modifies fs
    ensures Tracking(fs, a) && Unmoved(fs.history) && fs.clock <= 3
    ensures var w1, w2 := Seen(fs.others, fs.start, a, 1), Seen(fs.others, fs.start, a, 2);
      failure == None <==>
        && fs.faults(1) == None && node in w1.nodes && ValidSource(w1.nodes[node], a, device)
        && fs.faults(2) == None && node in w2.nodes && ValidSource(w2.nodes[node], a, device)
    ensures failure == None ==> fs.clock == 3 && info.Some? && ValidSource(info.value, a, device)
    ensures var w1 := Seen(fs.others, fs.start, a, 1);
      fs.faults(1) == None && node in w1.nodes && !ValidSource(w1.nodes[node], a, device) ==> failure == Some(InvalidInput)
  {
    hide Chained, ValidSource, Latest, Seen, After;
    failure, info := None, None;
    AfterCall(fs.others, fs.start, a, fs.clock);
    var first := fs.FStat(node);
    if first.Error? { return Some(ErrnoFailure(first.errno)), None; }
    if !ValidSource(first.value, a, device) { return Some(InvalidInput), None; }
    AfterCall(fs.others, fs.start, a, fs.clock);
    var again := fs.FStat(node);
    if again.Error? { return Some(ErrnoFailure(again.errno)), None; }
    if !ValidSource(again.value, a, device) { return Some(InvalidInput), None; }
    info := Some(first.value);
  }

  /** The destination is absent, the source is on disk, and the parent directory is still as it should be. */
  method CheckDestinationAbsent(d: Descriptors, fs: FileSystem, parent: nat, a: Arguments) returns (failure: Option<Failure>)
    requires d.Valid() && parent in d.open && Tracking(fs, a) && fs.clock == 3 && Unmoved(fs.history)
    modifies d`clock, fs
    ensures Tracking(fs, a) && Unmoved(fs.history) && fs.clock <= RENAME_CALL
    ensures failure == None ==> fs.clock == RENAME_CALL
    ensures failure == None <==>
      && AbsentSeen(fs.others, fs.faults, fs.start, a) && fs.faults(4) == None
      && Checked(d.kernel, old(d.clock), d.open[parent], a.owner, true)
    ensures fs.faults(3) == None && a.destination in Seen(fs.others, fs.start, a, 3).entries ==>
              failure == Some(DestinationExists)
  {
    hide Chained, Latest, Checked, Seen, After;
    failure := None;
    AfterCall(fs.others, fs.start, a, fs.clock);
    var existing := fs.Open(a.destination);
    if existing.Ok? { return Some(DestinationExists); }
    if existing.errno != ENOENT { return Some(ErrnoFailure(existing.errno)); }
    AfterCall(fs.others, fs.start, a, fs.clock);
    var synced := fs.Call();
    if synced.Some? { return Some(ErrnoFailure(synced.value)); }
    var info, reason := d.Validate(parent, a.owner, true);
    AfterCall(fs.others, fs.start, a, fs.clock);
    var _ := fs.Call();
    if info.None? { return Some(reason); }
  }

  /** Opens what is now at the destination, compares it with the source as checked, syncs, and closes. */
  method CheckMoved(d: Descriptors, fs: FileSystem, a: Arguments, info: Stat) returns (failure: Option<Failure>)
    requires d.Valid() && Tracking(fs, a) && fs.clock == RENAME_CALL + 1 && OnlyMoves(fs.history, a) && Pinned(info, a)
    requires MovedTo(fs.history[RENAME_CALL].0, fs.history[RENAME_CALL].1, a.source, a.destination)
    modifies d`open, d`next, fs
    ensures d.Valid() && d.open == old(d.open)
    ensures Tracking(fs, a) && OnlyMoves(fs.history, a)
    ensures failure == None ==> Succeeded(fs.history, a) && fs.clock == CALLS
    ensures failure == None <==>
      && fs.faults(7) == None && fs.faults(8) == None && fs.faults(9) == None && fs.faults(10) == None
      && MovedSeen(fs.others, fs.start, a)
  {
    hide Chained, MovedTo, Latest, Seen, After;
    AfterCall(fs.others, fs.start, a, fs.clock);
    var destination := fs.Open(a.destination);
    if destination.Error? { return Some(ErrnoFailure(destination.errno)); }
    var fd := d.Adopt(destination.value);
    failure := CheckOpened(fs, destination.value, a, info);
    d.Close(fd);
    assert d.open == old(d.open);
  }

  method CheckOpened(fs: FileSystem, node: Node, a: Arguments, info: Stat) returns (failure: Option<Failure>)
    requires Tracking(fs, a) && fs.clock == RENAME_CALL + 2 && OnlyMoves(fs.history, a) && Pinned(info, a)
    requires MovedTo(fs.history[RENAME_CALL].0, fs.history[RENAME_CALL].1, a.source, a.destination)
    requires a.destination in fs.history[RENAME_CALL + 1].0.entries
    requires node == fs.history[RENAME_CALL + 1].0.entries[a.destination]
    modifies fs
    ensures Tracking(fs, a) && OnlyMoves(fs.history, a)
    ensures failure == None ==> Succeeded(fs.history, a) && fs.clock == CALLS
    ensures var w := Seen(fs.others, fs.start, a, 8);
      failure == None <==>
        && fs.faults(8) == None && fs.faults(9) == None && fs.faults(10) == None
        && node in w.nodes && ValidFile(w.nodes[node], a.owner) && Pinned(w.nodes[node], a)
  {
    hide Chained, MovedTo, Latest, Seen, After;
    failure := None;
    AfterCall(fs.others, fs.start, a, fs.clock);
    var after := fs.FStat(node);
    if after.Error? { return Some(ErrnoFailure(after.errno)); }
    if !ValidDestination(after.value, info, a.owner) { return Some(InvalidInput); }
    if after.value.device != a.device || after.value.inode != a.inode { return Some(InvalidInput); }
    AfterCall(fs.others, fs.start, a, fs.clock);
    var synced := fs.Call();
    if synced.Some? { return Some(ErrnoFailure(synced.value)); }
    AfterCall(fs.others, fs.start, a, fs.clock);
    synced := fs.Call();
    if synced.Some? { return Some(ErrnoFailure(synced.value)); }
  }

  /** The rename and what follows it. */
  method RenameAndCheck(d: Descriptors, fs: FileSystem, a: Arguments, info: Stat, ghost device: nat)
    returns (failure: Option<Failure>)
    requires d.Valid() && Tracking(fs, a) && fs.clock == RENAME_CALL && Unmoved(fs.history) && Pinned(info, a)
    requires SourceSeen(fs.others, fs.start, a, device)
    modifies d`open, d`next, fs
    ensures d.Valid() && d.open == old(d.open)
    ensures Moving(fs, a, failure)
    ensures var w := Seen(fs.others, fs.start, a, RENAME_CALL);
      && (failure == None <==>
            && (forall k :: RENAME_CALL <= k < CALLS ==> fs.faults(k) == None)
            && a.source in w.entries && a.destination !in w.entries && MovedSeen(fs.others, fs.start, a))
      && (fs.faults(6).Some? ==> failure == Some(ErrnoFailure(fs.faults(6).value)))
      && (fs.faults(6) == None && a.source !in w.entries ==> failure == Some(InvalidInput))
      && (fs.faults(6) == None && a.source in w.entries && a.destination in w.entries ==> failure == Some(DestinationExists))
  {
    hide Chained, Pinned, ValidFile, Succeeded, Seen, After, MovedSeen, SourceSeen, Latest;
    RenameSees(fs, a);
    QuietSoFar(fs.others, fs.faults, fs.start, a, fs.clock);
    var renamed := fs.RenameExclusive(a.source, a.destination);
    if renamed.Some? { return Some(ErrnoFailure(renamed.value)); }
    RenameTracks(fs, a);
    QuietMove(fs.others, fs.faults, fs.start, a, device);
    failure := CheckMoved(d, fs, a, info);
  }

  /** From the opened source to the end. */
  method MoveOpened(d: Descriptors, fs: FileSystem, parent: nat, node: Node, a: Arguments, device: nat)
    returns (failure: Option<Failure>)
    requires d.Valid() && parent in d.open && Tracking(fs, a) && fs.clock == 1 && Unmoved(fs.history)
    requires fs.faults(0) == None
    requires a.source in Seen(fs.others, fs.start, a, 0).entries
    requires node == Seen(fs.others, fs.start, a, 0).entries[a.source]
    modifies d, fs
    ensures d.Valid() && d.open == old(d.open)
    ensures Moving(fs, a, failure)
    ensures failure == None <==>
      && Goes(fs.others, fs.faults, fs.start, a, device)
      && Checked(d.kernel, old(d.clock), old(d.open[parent]), a.owner, true)
    ensures Reported(fs.others, fs.faults, fs.start, a, device,
                     Checked(d.kernel, old(d.clock), old(d.open[parent]), a.owner, true), failure)
  {
    hide Chained, ValidSource, Succeeded, Seen, After, Checked, MovedSeen, AbsentSeen, Latest, Quiet, IsPinnedFile;
    var info;
    forall w: World | node in w.nodes
      ensures ValidSource(w.nodes[node], a, device) <==> IsPinnedFile(w.nodes[node], a) && w.nodes[node].device == device
    {
      PinnedExactly(w.nodes[node], a, device);
    }
    failure, info := CheckSource(fs, node, a, device);
    QuietSoFar(fs.others, fs.faults, fs.start, a, fs.clock);
    if failure.Some? { return; }
    AbsentMeans(fs.others, fs.faults, fs.start, a);
    failure := CheckDestinationAbsent(d, fs, parent, a);
    QuietSoFar(fs.others, fs.faults, fs.start, a, fs.clock);
    if failure.Some? { return; }
    PinnedExactly(info.value, a, device);
    failure := RenameAndCheck(d, fs, a, info.value, device);
  }

  /** The checks on a source, field by field. */
  lemma PinnedExactly(info: Stat, a: Arguments, device: nat)
    ensures ValidSource(info, a, device) <==> IsPinnedFile(info, a) && info.device == device
    ensures ValidSource(info, a, device) ==> Pinned(info, a)
  {}

  lemma AbsentMeans(others: Interference, faults: nat -> Option<Errno>, start: World, a: Arguments)
    ensures faults(3) == None ==>
              (AbsentSeen(others, faults, start, a) <==> a.destination !in Seen(others, start, a, 3).entries)
  {}

  lemma QuietSoFar(others: Interference, faults: nat -> Option<Errno>, start: World, a: Arguments, n: nat)
    requires n <= RENAME_CALL
    ensures Quiet(others, faults) ==> After(others, start, a, n) == start
  {
    if Quiet(others, faults) { QuietAfter(others, faults, start, a, n); }
  }

  lemma QuietMove(others: Interference, faults: nat -> Option<Errno>, start: World, a: Arguments, device: nat)
    requires SourceSeen(others, start, a, device)
    requires a.source in Seen(others, start, a, 6).entries && a.destination !in Seen(others, start, a, 6).entries
    ensures Quiet(others, faults) ==> MovedSeen(others, start, a)
  {
    hide Seen, After, Pinned, ValidFile;
    if Quiet(others, faults) {
      QuietAfter(others, faults, start, a, 0);
      QuietAfter(others, faults, start, a, 1);
      QuietAfter(others, faults, start, a, 6);
      QuietAfter(others, faults, start, a, 7);
      QuietAfter(others, faults, start, a, 8);
    }
  }

  lemma RenameSees(fs: FileSystem, a: Arguments)
    requires Tracking(fs, a) && fs.clock == RENAME_CALL
    ensures fs.others(fs.clock, fs.world) == Seen(fs.others, fs.start, a, RENAME_CALL)
  {}

  lemma RenameTracks(fs: FileSystem, a: Arguments)
    requires fs.Valid() && fs.clock == RENAME_CALL + 1
    requires MovedTo(Seen(fs.others, fs.start, a, RENAME_CALL), fs.world, a.source, a.destination)
    ensures Tracking(fs, a)
  {}

  /** The source is opened in the parent, moved and closed again. */
  method MoveFile(d: Descriptors, fs: FileSystem, parent: nat, c: CommandLine, device: nat)
    returns (failure: Option<Failure>)
    requires d.Valid() && parent in d.open && fs.Valid() && fs.history == []
    modifies d, fs
    ensures d.Valid() && d.open == old(d.open)
    ensures Moving(fs, In(c, old(d.open[parent])), failure)
    ensures failure == None <==>
      && Goes(fs.others, fs.faults, fs.start, In(c, old(d.open[parent])), device)
      && Checked(d.kernel, old(d.clock), old(d.open[parent]), c.owner, true)
    ensures Reported(fs.others, fs.faults, fs.start, In(c, old(d.open[parent])), device,
                     Checked(d.kernel, old(d.clock), old(d.open[parent]), c.owner, true), failure)
  {
    hide Chained, Pinned, ValidFile, Succeeded, Checked, MovedSeen, AbsentSeen, ValidSource, Seen;
    var a := In(c, d.open[parent]);
    AfterCall(fs.others, fs.start, a, fs.clock);
    var source := fs.Open(a.source);
    if source.Error? { return Some(ErrnoFailure(source.errno)); }
    var fd := d.Adopt(source.value);
    failure := MoveOpened(d, fs, parent, source.value, a, device);
    d.Close(fd);
    assert d.open == old(d.open);
  }

  /** What holds of the world however a move ends. */
  ghost predicate Moving(fs: FileSystem, a: Arguments, failure: Option<Failure>)
    reads fs
  {
    && fs.Valid() && OnlyMoves(fs.history, a)
    && (failure == None ==> Succeeded(fs.history, a) && fs.world == After(fs.others, fs.start, a, CALLS))
    && (failure.Some? && Quiet(fs.others, fs.faults) ==> fs.world == fs.start)
  }

  datatype Process = Process(uid: nat, effectiveUid: nat)

  function DropFirst(parts: seq<Bytes>, n: nat): seq<Bytes> { if n <= |parts| then parts[n..] else [] }

  /** The directories of a run that begins at time `t`: opened, and checked again on their descriptors. */
  ghost function Directories(kernel: Kernel, t: nat, boundaryPath: Bytes, parentPath: Bytes, owner: nat): Option<Opening> {
    var boundaryParts, parentParts := Components(boundaryPath, true), Components(parentPath, false);
    if boundaryParts.None? || parentParts.None? then None
    else
      var suffix := DropFirst(parentParts.value, |boundaryParts.value|);
      var opening := OpenAll(kernel, t, boundaryParts.value, suffix, owner);
      var u := DirectoriesTime(t, boundaryParts.value, suffix);
      if && opening.BothOpen? && Checked(kernel, u, opening.boundary, owner, true)
         && Checked(kernel, u + 1, opening.parent, owner, true)
         && kernel.stat(u + 1, opening.parent).value.device == opening.boundaryStat.device
         && Checked(kernel, u + 2, opening.parent, owner, true)
      then Some(opening) else None
  }

  function DirectoriesTime(t: nat, boundaryParts: seq<Bytes>, suffix: seq<Bytes>): nat {
    t + 3 + 2 * |boundaryParts| + 2 * |suffix|
  }

  /** `to` was opened under its name in `from`, and then was a directory not writable by others and without set-id bits, of
      the owner where that is asked. */
  ghost predicate StepsInto(kernel: Kernel, from: Node, name: Bytes, to: Node, owner: nat, ofOwner: bool) {
    exists t: nat ::
      && kernel.openAt(t, from, name) == Ok(to) && kernel.stat(t + 1, to).Ok?
      && kernel.stat(t + 1, to).value.kind == Directory && !kernel.stat(t + 1, to).value.writableByOthers
      && !kernel.stat(t + 1, to).value.setId && (ofOwner ==> kernel.stat(t + 1, to).value.uid == owner)
  }

  /** `nodes` goes from the root along the names of the parent path and ends in `directory`; its first part goes along the
      names of the boundary path, and below the boundary every directory is the owner's. */
  ghost predicate LeadsTo(kernel: Kernel, boundaryPath: Bytes, parentPath: Bytes, owner: nat,
                          names: seq<Bytes>, b: nat, nodes: seq<Node>, directory: Node) {
    && parentPath == Join(names) && b <= |names| && boundaryPath == Join(names[..b])
    && |nodes| == |names| + 1 && kernel.root == Ok(nodes[0]) && nodes[|names|] == directory
    && forall k :: 0 <= k < |names| ==> StepsInto(kernel, nodes[k], names[k], nodes[k + 1], owner, k >= b)
  }

  /** What success comes to, in the words of the command line: the entry of the source name became the entry of the free
      destination name in that directory, nothing else changed, and what was then opened at the destination was a regular
      file of the owner with the device, inode, size and time given. */
  ghost predicate Renamed(history: History, c: CommandLine, directory: Node) {
    && |history| > RENAME_CALL + 2
    && MovedTo(history[RENAME_CALL].0, history[RENAME_CALL].1, Place(directory, c.sourceName), Place(directory, c.destinationName))
    && Place(directory, c.destinationName) in history[RENAME_CALL + 1].0.entries
    && var node := history[RENAME_CALL + 1].0.entries[Place(directory, c.destinationName)];
       && node in history[RENAME_CALL + 2].0.nodes
       && var info := history[RENAME_CALL + 2].0.nodes[node];
          && info.kind == Regular && info.uid == c.owner && info.links == 1 && info.device == c.device
          && info.inode == c.inode && info.size == c.size
          && info.seconds * 1_000_000_000 + info.nanoseconds == c.mtimeNanoseconds
  }

  lemma SucceededIsRenamed(history: History, c: CommandLine, directory: Node)
    requires Succeeded(history, In(c, directory))
    ensures Renamed(history, c, directory)
  {}

  lemma MovingMeans(fs: FileSystem, a: Arguments)
    requires Moving(fs, a, None)
    ensures Succeeded(fs.history, a)
  {}

  /** The whole helper. Under any interference it succeeds if and only if the process is the owner, the directories pass,
      and every call on the file finds what it needs. Its only change is one move that replaces nothing, in the directory
      that the parent path leads to from the root. However it ends, its descriptors are closed, but for a directory that
      was just opened on the way and failed its own check. */
  method Execute(d: Descriptors, fs: FileSystem, boundaryPath: Bytes, parentPath: Bytes, c: CommandLine, process: Process)
    returns (failure: Option<Failure>, leak: Option<nat>, ghost directory: Node)
    requires d.Valid() && fs.Valid() && fs.history == []
    modifies d, fs
    ensures d.Valid() && FailedCleanly(old(d.open), d.open, leak) && (leak.Some? ==> failure.Some?)
    ensures Moving(fs, In(c, directory), failure)
    ensures failure == None ==> Renamed(fs.history, c, directory)
    ensures process != Process(c.owner, c.owner) ==> failure == Some(InvalidInput)
    ensures Components(boundaryPath, true).None? || Components(parentPath, false).None? ==> failure == Some(InvalidInput)
    ensures failure == None && (parentPath == boundaryPath || boundaryPath + [SLASH] <= parentPath) ==>
      exists names, b, nodes :: LeadsTo(d.kernel, boundaryPath, parentPath, c.owner, names, b, nodes, directory)
    ensures var directories := Directories(d.kernel, old(d.clock), boundaryPath, parentPath, c.owner);
      failure == None <==>
        && process == Process(c.owner, c.owner) && directories.Some? && directories.value.BothOpen?
        && Goes(fs.others, fs.faults, fs.start, In(c, directories.value.parent), directories.value.boundaryStat.device)
    ensures var directories := Directories(d.kernel, old(d.clock), boundaryPath, parentPath, c.owner);
      process == Process(c.owner, c.owner) && directories.Some? && directories.value.BothOpen? ==>
        && directory == directories.value.parent
        && Reported(fs.others, fs.faults, fs.start, In(c, directory), directories.value.boundaryStat.device, true, failure)
  {
    hide Goes, Checked, Succeeded, OpenAll, Components, Moving, Reported, LeadsTo, Renamed;
    leak, directory := None, Node(0, 0);
    assert Moving(fs, In(c, directory), Some(InvalidInput)) by { NothingMoved(fs, In(c, directory), InvalidInput); }
    if process.uid != c.owner || process.effectiveUid != c.owner { return Some(InvalidInput), None, directory; }
    var boundaryParts, parentParts := Components(boundaryPath, true), Components(parentPath, false);
    if boundaryParts.None? || parentParts.None? { return Some(InvalidInput), None, directory; }
    var suffix := DropFirst(parentParts.value, |boundaryParts.value|);
    ghost var t := d.clock;
    var walk := OpenDirectory(d, boundaryParts.value, suffix, c.owner);
    if walk.WalkFailed? {
      NothingMoved(fs, In(c, directory), walk.failure);
      return Some(walk.failure), walk.leak, directory;
    }
    directory := d.open[walk.parent];
    PathLeads(d.kernel, t, boundaryPath, parentPath, boundaryParts.value, parentParts.value, c.owner);
    failure := MoveInside(d, fs, walk, c);
    if failure == None {
      MovingMeans(fs, In(c, directory));
      SucceededIsRenamed(fs.history, c, directory);
    }
    d.Close(walk.parent);
    d.Close(walk.boundary);
    assert d.open == old(d.open);
  }

  lemma NothingMoved(fs: FileSystem, a: Arguments, failure: Failure)
    requires fs.Valid() && fs.history == []
    ensures Moving(fs, a, Some(failure))
  {}

  /** When the parent lies inside the boundary, what opening reaches is where the parent path leads. */
  lemma PathLeads(kernel: Kernel, t: nat, boundaryPath: Bytes, parentPath: Bytes, boundaryParts: seq<Bytes>,
                  parentParts: seq<Bytes>, owner: nat)
    requires Components(boundaryPath, true) == Some(boundaryParts) && Components(parentPath, false) == Some(parentParts)
    ensures var opening := OpenAll(kernel, t, boundaryParts, DropFirst(parentParts, |boundaryParts|), owner);
      opening.BothOpen? && (parentPath == boundaryPath || boundaryPath + [SLASH] <= parentPath) ==>
        exists names, b, nodes :: LeadsTo(kernel, boundaryPath, parentPath, owner, names, b, nodes, opening.parent)
  {
    hide Components, Join, StepsInto, Follow;
    var suffix := DropFirst(parentParts, |boundaryParts|);
    var opening := OpenAll(kernel, t, boundaryParts, suffix, owner);
    if opening.BothOpen? && (parentPath == boundaryPath || boundaryPath + [SLASH] <= parentPath) {
      RootRefused(boundaryPath);
      ComponentsExactly(boundaryPath, boundaryParts);
      ComponentsExactly(parentPath, parentParts);
      InsideExactly(boundaryPath, boundaryParts, parentPath, parentParts);
      var b := |boundaryParts|;
      assert parentParts[..b] == boundaryParts && parentParts[b..] == suffix;
      var down := ReachedWalks(kernel, t + 1, kernel.root.value, boundaryParts, owner, false);
      var below := ReachedWalks(kernel, t + 3 + 2 * b, down[b], suffix, owner, true);
      var nodes := down[..b] + below;
      forall k | 0 <= k < |parentParts| ensures StepsInto(kernel, nodes[k], parentParts[k], nodes[k + 1], owner, k >= b) {
        if k < b {
          assert Entered(kernel, down[k], boundaryParts[k], down[k + 1], owner, false);
          EnteredSteps(kernel, down[k], boundaryParts[k], down[k + 1], owner, false);
        } else {
          assert Entered(kernel, below[k - b], suffix[k - b], below[k - b + 1], owner, true);
          EnteredSteps(kernel, below[k - b], suffix[k - b], below[k - b + 1], owner, true);
        }
      }
      assert LeadsTo(kernel, boundaryPath, parentPath, owner, parentParts, b, nodes, opening.parent);
    }
  }

  lemma EnteredSteps(kernel: Kernel, from: Node, name: Bytes, to: Node, owner: nat, ofOwner: bool)
    requires Entered(kernel, from, name, to, owner, ofOwner)
    ensures StepsInto(kernel, from, name, to, owner, ofOwner)
  {
    var t: nat :| Enter(kernel, t, from, name, owner, ofOwner) == Reached(to);
    assert kernel.openAt(t, from, name) == Ok(to);
  }

  /** With both directories open: their checks, and the move. */
  method MoveInside(d: Descriptors, fs: FileSystem, walk: Walk, c: CommandLine) returns (failure: Option<Failure>)
    requires d.Valid() && fs.Valid() && fs.history == []
    requires walk.Opened? && walk.boundary in d.open && walk.parent in d.open
    modifies d, fs
    ensures d.Valid() && d.open == old(d.open)
    ensures Moving(fs, In(c, old(d.open[walk.parent])), failure)
    ensures var boundary, parent, u := old(d.open[walk.boundary]), old(d.open[walk.parent]), old(d.clock);
      var passes := && Checked(d.kernel, u, boundary, c.owner, true) && Checked(d.kernel, u + 1, parent, c.owner, true)
                    && d.kernel.stat(u + 1, parent).value.device == walk.boundaryStat.device
                    && Checked(d.kernel, u + 2, parent, c.owner, true);
      && (failure == None <==> passes && Goes(fs.others, fs.faults, fs.start, In(c, parent), walk.boundaryStat.device))
      && (passes ==> Reported(fs.others, fs.faults, fs.start, In(c, parent), walk.boundaryStat.device, true, failure))
  {
    hide Goes, Moving, Reported, ValidDirectory;
    var reason;
    var info;
    ghost var parent := d.open[walk.parent];
    info, reason := d.Validate(walk.boundary, c.owner, true);
    if info.None? {
      NothingMoved(fs, In(c, parent), reason);
      return Some(reason);
    }
    info, reason := d.Validate(walk.parent, c.owner, true);
    if info.None? {
      NothingMoved(fs, In(c, parent), reason);
      return Some(reason);
    }
    if info.value.device != walk.boundaryStat.device {
      NothingMoved(fs, In(c, parent), InvalidInput);
      return Some(InvalidInput);
    }
    failure := MoveFile(d, fs, walk.parent, c, walk.boundaryStat.device);
  }

  // What success says.

  ghost predicate SourceReady(w: World, a: Arguments, device: nat) {
    && a.source in w.entries && w.entries[a.source] in w.nodes
    && IsPinnedFile(w.nodes[w.entries[a.source]], a) && w.nodes[w.entries[a.source]].device == device
  }

  /** What a run that nobody disturbs needs. */
  ghost predicate Ready(w: World, a: Arguments, device: nat) {
    SourceReady(w, a, device) && a.destination !in w.entries
  }

  lemma {:induction false} QuietAfter(others: Interference, faults: nat -> Option<Errno>, start: World, a: Arguments, n: nat)
    requires Quiet(others, faults)
    ensures After(others, start, a, n) == if n <= RENAME_CALL then start else Moved(start, a)
    ensures Seen(others, start, a, n) == After(others, start, a, n)
  {
    if n > 0 { QuietAfter(others, faults, start, a, n - 1); }
  }

  /** Undisturbed, the helper goes through exactly when the source is the pinned file and the destination is free, and
      then the entry has moved and nothing else has changed. */
  lemma UndisturbedExactly(others: Interference, faults: nat -> Option<Errno>, start: World, a: Arguments, device: nat)
    requires Quiet(others, faults)
    ensures Goes(others, faults, start, a, device) <==> Ready(start, a, device)
    ensures Ready(start, a, device) ==> MovedTo(start, After(others, start, a, CALLS), a.source, a.destination)
  {
    hide Seen, After;
    forall k: nat ensures Seen(others, start, a, k) == if k <= RENAME_CALL then start else Moved(start, a) {
      QuietAfter(others, faults, start, a, k);
    }
    QuietAfter(others, faults, start, a, CALLS);
  }

  /** Whatever others do, no call of the helper loses or duplicates a file, and an entry that stands at the destination
      when a call begins still stands there, unchanged, when it ends. */
  lemma HelperConserves(history: History, a: Arguments, k: nat)
    requires OnlyMoves(history, a) && k < |history|
    ensures Named(history[k].1.entries) == Named(history[k].0.entries)
    ensures a.destination in history[k].0.entries ==>
            && a.destination in history[k].1.entries
            && history[k].1.entries[a.destination] == history[k].0.entries[a.destination]
  {
    hide Named;
    if history[k].1 != history[k].0 {
      MoveConserves(history[k].0, history[k].1, a.source, a.destination);
    }
  }

  /** A file's record carries the file's own identity. */
  ghost predicate Consistent(w: World) {
    forall node :: node in w.nodes ==> w.nodes[node].device == node.device && w.nodes[node].inode == node.inode
  }

  /** Before the call number `k` the others leave `name` as the call before left it. */
  ghost predicate LeavesAlone(others: Interference, start: World, a: Arguments, k: nat, name: Place) {
    var before, after := After(others, start, a, k).entries, Seen(others, start, a, k).entries;
    (name in before <==> name in after) && (name in before ==> after[name] == before[name])
  }

  lemma {:induction false} SourceKept(others: Interference, start: World, a: Arguments, k: nat)
    requires k <= RENAME_CALL && forall i :: 1 <= i <= k ==> LeavesAlone(others, start, a, i, a.source)
    requires a.source in Seen(others, start, a, 0).entries
    ensures a.source in Seen(others, start, a, k).entries
    ensures Seen(others, start, a, k).entries[a.source] == Seen(others, start, a, 0).entries[a.source]
  {
    if k > 0 {
      SourceKept(others, start, a, k - 1);
      assert LeavesAlone(others, start, a, k, a.source);
    }
  }

  /** Success speaks of the file opened at the destination afterwards. The file that was moved is that file, the pinned
      one, exactly when others leave the destination name alone between the rename and that open; and it is enough that
      they leave the source name alone between its open and the rename. */
  lemma MovedFileIsPinned(others: Interference, faults: nat -> Option<Errno>, start: World, a: Arguments, device: nat)
    requires Goes(others, faults, start, a, device)
    requires Consistent(Seen(others, start, a, 1)) && Consistent(Seen(others, start, a, 8))
    ensures var moved := Seen(others, start, a, RENAME_CALL).entries[a.source];
      && (moved == Node(a.device, a.inode) <==> LeavesAlone(others, start, a, RENAME_CALL + 1, a.destination))
      && ((forall k :: 1 <= k <= RENAME_CALL ==> LeavesAlone(others, start, a, k, a.source)) ==>
            moved == Node(a.device, a.inode))
  {
    if forall k :: 1 <= k <= RENAME_CALL ==> LeavesAlone(others, start, a, k, a.source) {
      SourceKept(others, start, a, RENAME_CALL);
    }
    var found := Seen(others, start, a, 7).entries[a.destination];
    assert found == Node(a.device, a.inode);
    assert After(others, start, a, 7).entries[a.destination] == Seen(others, start, a, 6).entries[a.source];
  }

  // A run in which another file is moved.

  /** The other process puts another file under the source name before the rename, and the pinned one back under the
      destination name before it is opened. */
  function Exchanging(pinned: Node, other: Node, from: Place, aside: Place, to: Place): Interference {
    (k: nat, w: World) =>
      if k == RENAME_CALL then w.(entries := map[from := other, aside := pinned])
      else if k == RENAME_CALL + 1 then w.(entries := map[to := pinned, aside := other])
      else w
  }

  /** Success although another file than the pinned one was moved. */
  lemma ExchangeGoesUnnoticed(a: Arguments, device: nat, info: Stat, other: Node, aside: Place)
    requires ValidSource(info, a, device) && other != Node(a.device, a.inode)
    requires a.source != a.destination && aside != a.source && aside != a.destination
    ensures var pinned := Node(a.device, a.inode);
      var start := World(map[a.source := pinned, aside := other], map[pinned := info]);
      var others := Exchanging(pinned, other, a.source, aside, a.destination);
      && Goes(others, (_: nat) => None, start, a, device)
      && Seen(others, start, a, RENAME_CALL).entries[a.source] == other
  {
    var pinned := Node(a.device, a.inode);
    var start := World(map[a.source := pinned, aside := other], map[pinned := info]);
    var others := Exchanging(pinned, other, a.source, aside, a.destination);
    forall k: nat | k < RENAME_CALL ensures Seen(others, start, a, k) == start { StillAtStart(others, start, a, k); }
    StillAtStart(others, start, a, RENAME_CALL);
    assert Seen(others, start, a, 6) == start.(entries := map[a.source := other, aside := pinned]);
    assert After(others, start, a, 7).nodes == start.nodes;
    assert Seen(others, start, a, 7) == start.(entries := map[a.destination := pinned, aside := other]);
    assert Seen(others, start, a, 8) == Seen(others, start, a, 7);
  }

  lemma {:induction false} StillAtStart(others: Interference, start: World, a: Arguments, n: nat)
    requires n <= RENAME_CALL && forall k: nat, w: World :: k < RENAME_CALL ==> others(k, w) == w
    ensures After(others, start, a, n) == start && (n < RENAME_CALL ==> Seen(others, start, a, n) == start)
  {
    if n > 0 { StillAtStart(others, start, a, n - 1); }
  }
}
