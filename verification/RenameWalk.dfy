/** The descriptor walk of the rename helper, from the root to the boundary and on to the parent directory. */
module RenameWalk {
  import opened Common
  import opened RenamePaths

  datatype Errno = EEXIST | EINVAL | ENOTSUP | EOPNOTSUPP | EACCES | EPERM | ELOOP | ENOENT | ENOTDIR | Unexpected

  datatype Failure = DestinationExists | UnsupportedFilesystem | InvalidInput | HelperFailure

  datatype Result<+T> = Ok(value: T) | Error(errno: Errno)

  function ErrnoFailure(errno: Errno): Failure {
    match errno
    case EEXIST => DestinationExists
    case EINVAL | ENOTSUP | EOPNOTSUPP => UnsupportedFilesystem
    case EACCES | EPERM | ELOOP | ENOENT | ENOTDIR => InvalidInput
    case Unexpected => HelperFailure
  }

  /** What a failed call is reported as. */
  lemma ErrnoExactly(errno: Errno)
    ensures ErrnoFailure(errno) == DestinationExists <==> errno == EEXIST
    ensures ErrnoFailure(errno) == UnsupportedFilesystem <==> errno in {EINVAL, ENOTSUP, EOPNOTSUPP}
    ensures ErrnoFailure(errno) == InvalidInput <==> errno in {EACCES, EPERM, ELOOP, ENOENT, ENOTDIR}
  {}

  datatype Node = Node(device: nat, inode: nat)

  datatype Kind = Regular | Directory | OtherKind

  datatype Stat = Stat(
    device: nat, inode: nat, kind: Kind, uid: nat, links: nat, writableByOthers: bool, setId: bool,
    size: nat, seconds: nat, nanoseconds: nat)

  function MtimeNanoseconds(info: Stat): nat { info.seconds * 1_000_000_000 + info.nanoseconds }

  /** With nanoseconds in range, two times have one number exactly when they are the same time. */
  lemma MtimeExact(a: Stat, b: Stat)
    requires a.nanoseconds < 1_000_000_000 && b.nanoseconds < 1_000_000_000
    ensures MtimeNanoseconds(a) == MtimeNanoseconds(b) <==> a.seconds == b.seconds && a.nanoseconds == b.nanoseconds
  {}

  predicate ValidDirectory(info: Stat, owner: nat, requireOwner: bool) {
    info.kind == Directory && !info.writableByOthers && !info.setId && (requireOwner ==> info.uid == owner)
  }

  // The walk.

  /** Every answer of the kernel may depend on when it is asked, which is all that other processes can change. */
  datatype Kernel = Kernel(
    root: Result<Node>, openAt: (nat, Node, Bytes) -> Result<Node>, stat: (nat, Node) -> Result<Stat>,
    dup: nat -> Option<Errno>)

  class Descriptors {
    const kernel: Kernel
    var open: map<nat, Node>
    var next: nat
    var clock: nat

    ghost predicate Valid() reads this { forall fd :: fd in open ==> fd < next }

    constructor (kernel: Kernel)
      ensures Valid() && this.kernel == kernel && open == map[] && clock == 0
    {
      this.kernel := kernel;
      open, next, clock := map[], 0, 0;
    }

    /** Gives a file that was just opened a descriptor. */
    method Adopt(node: Node) returns (fd: nat)
      requires Valid()
      modifies this`open, this`next
      ensures Valid() && fd == old(next) && next == fd + 1 && fd !in old(open) && open == old(open)[fd := node]
    {
      fd := next;
      open, next := open[fd := node], next + 1;
    }

    method OpenRoot() returns (r: Result<nat>)
      requires Valid()
      modifies this
      ensures Valid() && clock == old(clock) + 1 && next >= old(next)
      ensures match kernel.root
              case Error(e) => r == Error(e) && open == old(open)
              case Ok(node) => r == Ok(old(next)) && open == old(open)[old(next) := node] && next > old(next)
    {
      clock := clock + 1;
      if kernel.root.Error? { return Error(kernel.root.errno); }
      var fd := Adopt(kernel.root.value);
      r := Ok(fd);
    }

    method OpenAt(dir: nat, name: Bytes) returns (r: Result<nat>)
      requires Valid() && dir in open
      modifies this
      ensures Valid() && clock == old(clock) + 1 && next >= old(next)
      ensures match kernel.openAt(old(clock), old(open[dir]), name)
              case Error(e) => r == Error(e) && open == old(open)
              case Ok(node) => r == Ok(old(next)) && open == old(open)[old(next) := node] && next > old(next)
    {
      var answer := kernel.openAt(clock, open[dir], name);
      clock := clock + 1;
      if answer.Error? { return Error(answer.errno); }
      var fd := Adopt(answer.value);
      r := Ok(fd);
    }

    method Dup(fd: nat) returns (r: Result<nat>)
      requires Valid() && fd in open
      modifies this
      ensures Valid() && clock == old(clock) + 1 && next >= old(next) && (r.Error? <==> kernel.dup(old(clock)).Some?)
      ensures r.Error? ==> open == old(open)
      ensures r.Ok? ==> r == Ok(old(next)) && open == old(open)[old(next) := old(open[fd])] && next > old(next)
    {
      var refused := kernel.dup(clock);
      clock := clock + 1;
      if refused.Some? { return Error(refused.value); }
      var copy := Adopt(open[fd]);
      r := Ok(copy);
    }

    method Close(fd: nat)
      requires Valid() && fd in open
      modifies this`open
      ensures Valid() && open == old(open) - {fd}
    {
      open := open - {fd};
    }

    /** A directory passes or fails its check, with the failure the helper reports. */
    method Validate(fd: nat, owner: nat, requireOwner: bool) returns (info: Option<Stat>, failure: Failure)
      requires Valid() && fd in open
      modifies this`clock
      ensures clock == old(clock) + 1
      ensures info.Some? <==> Checked(kernel, old(clock), open[fd], owner, requireOwner)
      ensures info.Some? ==> kernel.stat(old(clock), open[fd]) == Ok(info.value)
      ensures info.None? ==>
        failure == if kernel.stat(old(clock), open[fd]).Error? then ErrnoFailure(kernel.stat(old(clock), open[fd]).errno)
                   else InvalidInput
    {
      var r := kernel.stat(clock, open[fd]);
      clock := clock + 1;
      failure := InvalidInput;
      if r.Error? { return None, ErrnoFailure(r.errno); }
      if !ValidDirectory(r.value, owner, requireOwner) { return None, InvalidInput; }
      info := Some(r.value);
    }
  }

  ghost predicate Checked(kernel: Kernel, t: nat, node: Node, owner: nat, requireOwner: bool) {
    kernel.stat(t, node).Ok? && ValidDirectory(kernel.stat(t, node).value, owner, requireOwner)
  }

  /** The check, field by field. */
  lemma CheckedExactly(kernel: Kernel, t: nat, node: Node, owner: nat, requireOwner: bool)
    ensures Checked(kernel, t, node, owner, requireOwner) <==>
      && kernel.stat(t, node).Ok? && kernel.stat(t, node).value.kind == Directory
      && !kernel.stat(t, node).value.writableByOthers && !kernel.stat(t, node).value.setId
      && (requireOwner ==> kernel.stat(t, node).value.uid == owner)
  {}

  /** Where a walk ends: at a directory, before a name that cannot be opened, or at one that opens and fails its check. */
  datatype Reach = Reached(node: Node) | NoEntry | BadEntry(node: Node)

  ghost function Enter(kernel: Kernel, t: nat, from: Node, name: Bytes, owner: nat, requireOwner: bool): Reach {
    match kernel.openAt(t, from, name)
    case Error(_) => NoEntry
    case Ok(to) => if Checked(kernel, t + 1, to, owner, requireOwner) then Reached(to) else BadEntry(to)
  }

  /** The walk along `names` that begins at time `t`, two system calls for each name. */
  ghost function Follow(kernel: Kernel, t: nat, from: Node, names: seq<Bytes>, owner: nat, requireOwner: bool): Reach
    decreases |names|
  {
    if names == [] then Reached(from)
    else
      var step := Enter(kernel, t, from, names[0], owner, requireOwner);
      if step.Reached? then Follow(kernel, t + 2, step.node, names[1..], owner, requireOwner) else step
  }

  /** One step down: the directory that was current is closed and the new one takes its place. Only when the new
      directory fails its own check do both stay open. */
  method Descend(d: Descriptors, current: nat, part: Bytes, owner: nat, requireOwner: bool)
    returns (entered: Option<nat>, leak: Option<nat>, failure: Failure)
    requires d.Valid() && current in d.open
    modifies d
    ensures d.Valid() && d.next >= old(d.next)
    ensures match Enter(d.kernel, old(d.clock), old(d.open[current]), part, owner, requireOwner)
            case Reached(node) =>
              && entered.Some? && leak == None && entered.value >= old(d.next) && d.clock == old(d.clock) + 2
              && d.open == (old(d.open) - {current})[entered.value := node]
            case NoEntry => entered == None && leak == None && d.open == old(d.open)
            case BadEntry(node) =>
              entered == None && leak.Some? && leak.value >= old(d.next) && d.open == old(d.open)[leak.value := node]
  {
    entered, leak, failure := None, None, InvalidInput;
    var next := d.OpenAt(current, part);
    if next.Error? { return None, None, ErrnoFailure(next.errno); }
    var info;
    info, failure := d.Validate(next.value, owner, requireOwner);
    if info.None? { return None, Some(next.value), failure; }
    d.Close(current);
    entered := Some(next.value);
  }

  /** Walks down from an open directory, which is closed on the way; a failed walk closes where it stood, and leaves
      behind only a directory that was just opened and failed its own check. */
  method WalkDown(d: Descriptors, start: nat, parts: seq<Bytes>, owner: nat, requireOwner: bool)
    returns (end: Option<nat>, leak: Option<nat>, failure: Failure)
    requires d.Valid() && start in d.open
    modifies d
    ensures d.Valid() && d.next >= old(d.next)
    ensures match Follow(d.kernel, old(d.clock), old(d.open[start]), parts, owner, requireOwner)
            case Reached(node) =>
              && end.Some? && leak == None && (end.value == start || end.value >= old(d.next))
              && d.clock == old(d.clock) + 2 * |parts| && d.open == (old(d.open) - {start})[end.value := node]
            case NoEntry => end == None && leak == None && d.open == old(d.open) - {start}
            case BadEntry(node) =>
              && end == None && leak.Some? && leak.value >= old(d.next)
              && d.open == (old(d.open) - {start})[leak.value := node]
  {
    hide Enter;
    var current: nat := start;
    failure := InvalidInput;
    assert d.open == (d.open - {start})[start := d.open[start]];
    for i := 0 to |parts|
      invariant d.Valid() && d.next >= old(d.next) && (current == start || current >= old(d.next))
      invariant current in d.open && d.clock == old(d.clock) + 2 * i
      invariant d.open == (old(d.open) - {start})[current := d.open[current]]
      invariant Follow(d.kernel, old(d.clock), old(d.open[start]), parts, owner, requireOwner)
             == Follow(d.kernel, d.clock, d.open[current], parts[i..], owner, requireOwner)
    {
      assert parts[i..][0] == parts[i] && parts[i..][1..] == parts[i + 1..];
      var entered;
      entered, leak, failure := Descend(d, current, parts[i], owner, requireOwner);
      if entered.None? {
        d.Close(current);
        return None, leak, failure;
      }
      current := entered.value;
    }
    return Some(current), None, failure;
  }

  /** Nothing new is open after a failed walk, except one directory that was just opened and failed its own check. */
  ghost predicate FailedCleanly(before: map<nat, Node>, after: map<nat, Node>, leak: Option<nat>) {
    if leak.None? then after == before
    else leak.value !in before && leak.value in after && after == before[leak.value := after[leak.value]]
  }

  datatype Walk = Opened(boundary: nat, parent: nat, boundaryStat: Stat) | WalkFailed(failure: Failure, leak: Option<nat>)

  /** What opening the directories comes to: both, or a failure with at most one directory left open. */
  datatype Opening = BothOpen(boundary: Node, parent: Node, boundaryStat: Stat) | NotOpen(left: Option<Node>)

  ghost function Failed(reach: Reach): Opening { NotOpen(if reach.BadEntry? then Some(reach.node) else None) }

  /** The boundary from the root, then a second descriptor of it and the owner's check. */
  ghost function OpenBoundaryAt(kernel: Kernel, t: nat, parts: seq<Bytes>, owner: nat): Opening {
    if kernel.root.Error? then NotOpen(None)
    else
      var reach := Follow(kernel, t + 1, kernel.root.value, parts, owner, false);
      var u := t + 1 + 2 * |parts|;
      if !reach.Reached? then Failed(reach)
      else if kernel.dup(u).Some? || !Checked(kernel, u + 1, reach.node, owner, true) then NotOpen(None)
      else BothOpen(reach.node, reach.node, kernel.stat(u + 1, reach.node).value)
  }

  /** And from the boundary to the parent, through directories of the owner. */
  ghost function OpenAll(kernel: Kernel, t: nat, boundaryParts: seq<Bytes>, suffix: seq<Bytes>, owner: nat): Opening {
    var first := OpenBoundaryAt(kernel, t, boundaryParts, owner);
    if first.NotOpen? then first
    else
      var reach := Follow(kernel, t + 3 + 2 * |boundaryParts|, first.parent, suffix, owner, true);
      if reach.Reached? then first.(parent := reach.node) else Failed(reach)
  }

  ghost predicate Opens(opening: Opening, walk: Walk, before: map<nat, Node>, after: map<nat, Node>) {
    match opening
    case BothOpen(boundary, parent, info) =>
      && walk.Opened? && walk.boundaryStat == info && walk.boundary != walk.parent
      && walk.boundary !in before && walk.parent !in before
      && after == before[walk.boundary := boundary][walk.parent := parent]
    case NotOpen(left) =>
      && walk.WalkFailed? && FailedCleanly(before, after, walk.leak)
      && (walk.leak.Some? <==> left.Some?) && (left.Some? ==> after[walk.leak.value] == left.value)
  }

  /** A second descriptor of the directory reached, and its check; without it, the first is closed too. */
  method HoldBoundary(d: Descriptors, current: nat, owner: nat) returns (walk: Walk)
    requires d.Valid() && current in d.open
    modifies d
    ensures d.Valid() && d.next >= old(d.next)
    ensures var node, t := old(d.open[current]), old(d.clock);
      if d.kernel.dup(t).None? && Checked(d.kernel, t + 1, node, owner, true) then
        && walk.Opened? && walk.parent == current && old(d.next) <= walk.boundary < d.next && d.clock == t + 2
        && d.kernel.stat(t + 1, node) == Ok(walk.boundaryStat) && d.open == old(d.open)[walk.boundary := node]
      else
        walk.WalkFailed? && walk.leak == None && d.open == old(d.open) - {current}
  {
    hide Checked;
    var duplicate := d.Dup(current);
    if duplicate.Error? {
      d.Close(current);
      return WalkFailed(ErrnoFailure(duplicate.errno), None);
    }
    var info, failure := d.Validate(duplicate.value, owner, true);
    if info.None? {
      d.Close(current);
      d.Close(duplicate.value);
      return WalkFailed(failure, None);
    }
    walk := Opened(duplicate.value, current, info.value);
  }

  /** The walk from the root to the boundary, open twice: once to keep and once to walk on from. */
  method OpenBoundary(d: Descriptors, parts: seq<Bytes>, owner: nat) returns (walk: Walk)
    requires d.Valid()
    modifies d
    ensures d.Valid() && d.next >= old(d.next)
    ensures walk.Opened? ==> d.clock == old(d.clock) + 3 + 2 * |parts| && walk.boundary < d.next && walk.parent < d.next
    ensures Opens(OpenBoundaryAt(d.kernel, old(d.clock), parts, owner), walk, old(d.open), d.open)
  {
    hide Checked, Follow;
    var root := d.OpenRoot();
    if root.Error? { return WalkFailed(ErrnoFailure(root.errno), None); }
    assert d.open - {root.value} == old(d.open);
    var current, leak, failure := WalkDown(d, root.value, parts, owner, false);
    if current.None? {
      assert leak.None? ==> d.open == old(d.open);
      assert leak.Some? ==> leak.value !in old(d.open) && d.open == old(d.open)[leak.value := d.open[leak.value]];
      return WalkFailed(failure, leak);
    }
    ghost var node := d.open[current.value];
    assert d.open == old(d.open)[current.value := node] && current.value !in old(d.open);
    walk := HoldBoundary(d, current.value, owner);
    assert walk.WalkFailed? ==> d.open == old(d.open);
    assert walk.Opened? ==> d.open == old(d.open)[walk.boundary := node][walk.parent := node];
  }

  /** On success exactly two descriptors are new, of the boundary and of the parent that the walks reach; on failure none
      is new, except one that was just opened and failed its own check. Which of the two happens is exactly what the
      kernel's answers along the walks say. */
  method OpenDirectory(d: Descriptors, boundaryParts: seq<Bytes>, suffix: seq<Bytes>, owner: nat) returns (walk: Walk)
    requires d.Valid()
    modifies d
    ensures d.Valid()
    ensures walk.Opened? ==> d.clock == old(d.clock) + 3 + 2 * |boundaryParts| + 2 * |suffix|
    ensures Opens(OpenAll(d.kernel, old(d.clock), boundaryParts, suffix, owner), walk, old(d.open), d.open)
  {
    hide Checked, Follow, OpenBoundaryAt;
    walk := OpenBoundary(d, boundaryParts, owner);
    if walk.WalkFailed? { return; }
    var boundary, start := walk.boundary, walk.parent;
    ghost var kept := d.open[boundary];
    assert d.open - {start} == old(d.open)[boundary := kept];
    var current, leak, failure := WalkDown(d, start, suffix, owner, true);
    if current.None? {
      d.Close(boundary);
      assert leak.None? ==> d.open == old(d.open);
      assert leak.Some? ==> leak.value !in old(d.open) && d.open == old(d.open)[leak.value := d.open[leak.value]];
      return WalkFailed(failure, leak);
    }
    assert current.value !in old(d.open) && current.value != boundary;
    assert d.open == old(d.open)[boundary := kept][current.value := d.open[current.value]];
    walk := Opened(boundary, current.value, walk.boundaryStat);
  }

  /** `to` was opened under its name in `from` and passed its check. */
  ghost predicate Entered(kernel: Kernel, from: Node, name: Bytes, to: Node, owner: nat, requireOwner: bool) {
    exists t: nat :: Enter(kernel, t, from, name, owner, requireOwner) == Reached(to)
  }

  ghost predicate Walked(kernel: Kernel, names: seq<Bytes>, nodes: seq<Node>, owner: nat, requireOwner: bool) {
    && |nodes| == |names| + 1
    && forall k :: 0 <= k < |names| ==> Entered(kernel, nodes[k], names[k], nodes[k + 1], owner, requireOwner)
  }

  /** What a walk reaches, it reaches by entering one checked directory after another, name by name. */
  lemma {:induction false} ReachedWalks(kernel: Kernel, t: nat, from: Node, names: seq<Bytes>, owner: nat, requireOwner: bool)
    returns (nodes: seq<Node>)
    requires Follow(kernel, t, from, names, owner, requireOwner).Reached?
    ensures Walked(kernel, names, nodes, owner, requireOwner) && nodes[0] == from
    ensures nodes[|names|] == Follow(kernel, t, from, names, owner, requireOwner).node
    decreases |names|
  {
    hide Enter;
    if names == [] { return [from]; }
    var step := Enter(kernel, t, from, names[0], owner, requireOwner);
    var rest := ReachedWalks(kernel, t + 2, step.node, names[1..], owner, requireOwner);
    nodes := [from] + rest;
    forall k | 0 <= k < |names| ensures Entered(kernel, nodes[k], names[k], nodes[k + 1], owner, requireOwner) {
      if k > 0 { assert Entered(kernel, rest[k - 1], names[1..][k - 1], rest[k], owner, requireOwner); }
    }
  }
}
