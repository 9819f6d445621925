/** Paths of the rename helper, as bytes: which are canonical, and when one lies inside another. */
module RenamePaths {
  import opened Common

  const SLASH: Byte := 47
  const DOT: Byte := 46
  const MAX_PATH: nat := 4096
  const MAX_NAME: nat := 255

  predicate Contains(s: Bytes, b: Byte) { exists i :: 0 <= i < |s| && s[i] == b }

  predicate HasDoubleSlash(s: Bytes) { exists i :: 0 <= i < |s| - 1 && s[i] == SLASH && s[i + 1] == SLASH }

  /** How many bytes come before the first slash. */
  function NameLength(s: Bytes): (n: nat)
    ensures n <= |s| && (n < |s| ==> s[n] == SLASH) && forall i :: 0 <= i < n ==> s[i] != SLASH
  {
    if s == [] || s[0] == SLASH then 0 else 1 + NameLength(s[1..])
  }

  /** The pieces between slashes, without the empty ones. */
  function Split(s: Bytes): seq<Bytes>
    decreases |s|
  {
    if s == [] then []
    else if s[0] == SLASH then Split(s[1..])
    else [s[..NameLength(s)]] + Split(s[NameLength(s)..])
  }

  predicate ValidPart(part: Bytes) {
    part != [] && part != [DOT] && part != [DOT, DOT] && !Contains(part, 0)
  }

  /** The components of a canonical absolute path, or none if the path is refused. */
  function Components(path: Bytes, rejectRoot: bool): Option<seq<Bytes>> {
    if path == [] || path[0] != SLASH || |path| > MAX_PATH || Contains(path, 0) || HasDoubleSlash(path)
       || (path[|path| - 1] == SLASH && path != [SLASH])
    then None
    else
      var parts := Split(path);
      if rejectRoot && parts == [] then None
      else if exists i :: 0 <= i < |parts| && !ValidPart(parts[i]) then None
      else Some(parts)
  }

  /** Written independently of the splitting: a slash before every component, and a lone slash for the root. */
  function Join(parts: seq<Bytes>): Bytes { if parts == [] then [SLASH] else Tail(parts) }

  function Tail(parts: seq<Bytes>): Bytes { if parts == [] then [] else [SLASH] + parts[0] + Tail(parts[1..]) }

  /** Legal component names, byte by byte: not empty, not a dot or two, without a slash and without a zero byte. */
  ghost predicate Names(parts: seq<Bytes>) {
    forall i :: 0 <= i < |parts| ==>
      && parts[i] != [] && parts[i] != [46] && parts[i] != [46, 46]
      && forall j :: 0 <= j < |parts[i]| ==> parts[i][j] != 47 && parts[i][j] != 0
  }

  lemma {:induction false} SplitNoSlash(s: Bytes)
    ensures forall i :: 0 <= i < |Split(s)| ==> Split(s)[i] != [] && !Contains(Split(s)[i], SLASH)
    decreases |s|
  {
    if s != [] {
      if s[0] == SLASH { SplitNoSlash(s[1..]); } else { SplitNoSlash(s[NameLength(s)..]); }
    }
  }

  /** Joining the pieces of a path gives it back, unless two slashes meet or one ends it. */
  lemma {:induction false} TailOfSplit(s: Bytes)
    requires !HasDoubleSlash(s) && s != [] && s[0] == SLASH && s[|s| - 1] != SLASH
    ensures Tail(Split(s)) == s
    decreases |s|
  {
    var rest := s[1..];
    assert rest != [] && rest[0] != SLASH;
    var n := NameLength(rest);
    var next := rest[n..];
    assert Split(s) == Split(rest) == [rest[..n]] + Split(next);
    assert s == [SLASH] + rest[..n] + next;
    if next != [] {
      SuffixClean(s, 1 + n);
      assert next == s[1 + n..];
      TailOfSplit(next);
    }
  }

  lemma SuffixClean(s: Bytes, k: nat)
    requires k < |s| && !HasDoubleSlash(s)
    ensures !HasDoubleSlash(s[k..]) && s[k..][|s| - k - 1] == s[|s| - 1]
  {
    var t := s[k..];
    forall i | 0 <= i < |t| - 1 ensures !(t[i] == SLASH && t[i + 1] == SLASH) {
      assert t[i] == s[k + i] && t[i + 1] == s[k + i + 1];
    }
  }

  lemma {:induction false} SplitOfTail(parts: seq<Bytes>)
    requires Names(parts)
    ensures Split(Tail(parts)) == parts
    ensures Tail(parts) != [] ==> Tail(parts)[0] == SLASH && Tail(parts)[|Tail(parts)| - 1] != SLASH
    ensures !HasDoubleSlash(Tail(parts)) && !Contains(Tail(parts), 0)
    ensures parts != [] ==> Tail(parts) != []
  {
    hide HasDoubleSlash, ValidPart, NameLength;
    if parts != [] {
      var name, rest := parts[0], parts[1..];
      var s := Tail(parts);
      SplitOfTail(rest);
      FirstName(parts);
      NotEmpty(name);
      SplitName(name, Tail(rest));
      JoinKeepsClean(name, Tail(rest), s);
      assert s[0] == SLASH && s[1..] == name + Tail(rest);
    } else {
      NothingClean();
    }
  }

  lemma FirstName(parts: seq<Bytes>)
    requires Names(parts) && parts != []
    ensures ValidPart(parts[0]) && !Contains(parts[0], SLASH)
  {}

  lemma NotEmpty(name: Bytes) requires ValidPart(name) ensures name != [] {}

  lemma NothingClean() ensures !HasDoubleSlash([]) && !Contains([], 0) {}

  lemma SplitName(name: Bytes, rest: Bytes)
    requires name != [] && !Contains(name, SLASH) && (rest != [] ==> rest[0] == SLASH)
    ensures Split(name + rest) == [name] + Split(rest)
  {
    var s := name + rest;
    NameLengthOf(name, rest);
    assert s[..|name|] == name && s[|name|..] == rest;
  }

  lemma {:induction false} NameLengthOf(name: Bytes, rest: Bytes)
    requires !Contains(name, SLASH) && (rest != [] ==> rest[0] == SLASH)
    ensures NameLength(name + rest) == |name|
  {
    if name != [] {
      assert (name + rest)[1..] == name[1..] + rest;
      assert forall i :: 0 <= i < |name[1..]| ==> name[1..][i] == name[i + 1];
      NameLengthOf(name[1..], rest);
    } else {
      assert name + rest == rest;
    }
  }

  lemma JoinKeepsClean(name: Bytes, rest: Bytes, s: Bytes)
    requires s == [SLASH] + name + rest && ValidPart(name) && !Contains(name, SLASH)
    requires !HasDoubleSlash(rest) && !Contains(rest, 0)
    requires rest != [] ==> rest[0] == SLASH && rest[|rest| - 1] != SLASH
    ensures !HasDoubleSlash(s) && !Contains(s, 0) && s[|s| - 1] != SLASH
  {
    forall i | 0 <= i < |s| - 1 ensures !(s[i] == SLASH && s[i + 1] == SLASH) {
      if i == 0 { assert s[1] == name[0]; }
      else if i <= |name| { assert s[i] == name[i - 1]; }
      else { assert s[i] == rest[i - 1 - |name|] && s[i + 1] == rest[i - |name|]; }
    }
    forall i | 0 <= i < |s| ensures s[i] != 0 {
      if i == 0 {} else if i <= |name| { assert s[i] == name[i - 1]; } else { assert s[i] == rest[i - 1 - |name|]; }
    }
    if rest == [] { assert s[|s| - 1] == name[|name| - 1]; } else { assert s[|s| - 1] == rest[|rest| - 1]; }
  }

  /** Splitting and joining undo each other: a path is accepted exactly when it is the joined form of names that are
      not special, and then those names are its components. */
  lemma ComponentsExactly(path: Bytes, parts: seq<Bytes>)
    ensures Components(path, false) == Some(parts) <==> Names(parts) && |path| <= MAX_PATH && path == Join(parts)
  {
    if Components(path, false) == Some(parts) {
      SplitNoSlash(path);
      if path != [SLASH] { TailOfSplit(path); RootSplits(); } else { RootSplits(); }
    }
    if Names(parts) && |path| <= MAX_PATH && path == Join(parts) {
      SplitOfTail(parts);
      RootSplits();
    }
  }

  lemma RootSplits()
    ensures Split([SLASH]) == []
  {
    assert [SLASH][1..] == [];
  }

  /** Prefix by whole components is the same as being the boundary or lying below it after a slash. */
  lemma InsideExactly(boundary: Bytes, boundaryParts: seq<Bytes>, parent: Bytes, parentParts: seq<Bytes>)
    requires Components(boundary, true) == Some(boundaryParts) && Components(parent, false) == Some(parentParts)
    ensures boundaryParts <= parentParts <==> parent == boundary || boundary + [SLASH] <= parent
  {
    ComponentsExactly(boundary, boundaryParts);
    ComponentsExactly(parent, parentParts);
    if boundaryParts <= parentParts {
      TailConcat(boundaryParts, parentParts[|boundaryParts|..]);
      assert boundaryParts + parentParts[|boundaryParts|..] == parentParts;
    }
    if parent == boundary {
      assert Split(parent) == Split(boundary);
    } else if boundary + [SLASH] <= parent {
      SplitBelow(boundaryParts, parent);
    }
  }

  lemma {:induction false} TailConcat(a: seq<Bytes>, b: seq<Bytes>)
    ensures Tail(a + b) == Tail(a) + Tail(b)
  {
    if a != [] {
      assert (a + b)[1..] == a[1..] + b;
      TailConcat(a[1..], b);
    } else {
      assert a + b == b;
    }
  }

  /** A path that continues with a slash after some names has those names as its first components. */
  lemma {:induction false} SplitBelow(parts: seq<Bytes>, path: Bytes)
    requires Names(parts) && Tail(parts) + [SLASH] <= path
    ensures parts <= Split(path)
    decreases |parts|
  {
    if parts != [] {
      var name := parts[0];
      var below := Tail(parts[1..]) + [SLASH];
      assert Tail(parts) + [SLASH] == [SLASH] + name + below;
      var rest := path[1 + |name|..];
      assert below <= rest;
      assert path[1..] == name + rest;
      assert below[0] == SLASH by { if parts[1..] != [] { assert Tail(parts[1..])[0] == SLASH; } }
      assert ValidPart(name) && !Contains(name, SLASH);
      SplitName(name, rest);
      SplitBelow(parts[1..], rest);
      assert Split(path) == [name] + Split(rest);
    }
  }

  predicate IsSingleComponent(name: Bytes) {
    name != [] && name != [DOT] && name != [DOT, DOT] && !Contains(name, SLASH) && !Contains(name, 0) && |name| <= MAX_NAME
  }

  /** One name, byte by byte. */
  ghost predicate SingleName(name: Bytes) {
    && 1 <= |name| <= 255 && name != [46] && name != [46, 46]
    && forall i :: 0 <= i < |name| ==> name[i] != 47 && name[i] != 0
  }

  /** The checks of the paths and names on the command line, which end with the components of boundary and parent: they
      pass exactly for an accepted boundary and an accepted parent that is the boundary or lies below it, the same parent
      for source and destination, and two single names. */
  method CheckPaths(boundary: Bytes, sourceParent: Bytes, destinationParent: Bytes, sourceName: Bytes, destinationName: Bytes)
    returns (parts: Option<(seq<Bytes>, seq<Bytes>)>)
    ensures parts.Some? <==>
      && Components(boundary, true).Some? && Components(sourceParent, false).Some? && sourceParent == destinationParent
      && (sourceParent == boundary || boundary + [SLASH] <= sourceParent)
      && SingleName(sourceName) && SingleName(destinationName)
    ensures parts.Some? ==>
      && parts.value.0 != [] && boundary == Join(parts.value.0) && sourceParent == Join(parts.value.1)
      && Names(parts.value.0) && Names(parts.value.1) && parts.value.0 <= parts.value.1
  {
    hide Join, Names, Components;
    var boundaryParts := Components(boundary, true);
    var sourceParts := Components(sourceParent, false);
    var destinationParts := Components(destinationParent, false);
    if boundaryParts.None? || sourceParts.None? || destinationParts.None? { return None; }
    RootRefused(boundary);
    ComponentsExactly(boundary, boundaryParts.value);
    ComponentsExactly(sourceParent, sourceParts.value);
    InsideExactly(boundary, boundaryParts.value, sourceParent, sourceParts.value);
    if sourceParent != destinationParent || sourceParts.value != destinationParts.value
       || |sourceParts.value| < |boundaryParts.value|
       || sourceParts.value[..|boundaryParts.value|] != boundaryParts.value
       || !IsSingleComponent(sourceName) || !IsSingleComponent(destinationName)
    {
      return None;
    }
    parts := Some((boundaryParts.value, sourceParts.value));
  }

  lemma RootRefused(path: Bytes)
    ensures Components(path, true).Some? ==> Components(path, false) == Components(path, true) && Components(path, true).value != []
  {}

  // The command line.

  predicate ValidValue(value: Bytes) {
    value != [] && !Contains(value, 0) && |value| <= MAX_PATH && !([45, 45] <= value)
  }

  /** A value, byte by byte: not empty, not too long, without a zero byte and not itself an option. */
  ghost predicate Usable(value: Bytes) {
    && 1 <= |value| <= 4096 && !(|value| >= 2 && value[0] == 45 && value[1] == 45)
    && forall i :: 0 <= i < |value| ==> value[i] != 0
  }

  lemma ValidIsUsable(value: Bytes) ensures ValidValue(value) <==> Usable(value) {}

  /** Options and values alternate, every option is allowed and none comes twice. */
  ghost predicate WellPaired(raw: seq<Bytes>, allowed: set<Bytes>) { |raw| % 2 == 0 && PairedTo(raw, allowed, |raw|) }

  ghost predicate PairedTo(raw: seq<Bytes>, allowed: set<Bytes>, n: nat)
    requires n <= |raw|
  {
    && (forall i :: 0 <= i < n && i % 2 == 0 ==> raw[i] in allowed)
    && (forall i :: 0 <= i < n && i % 2 == 1 ==> Usable(raw[i]))
    && (forall i, j :: 0 <= i < j < n && i % 2 == 0 && j % 2 == 0 ==> raw[i] != raw[j])
  }

  /** The first `n` words have been read into `read`: each option with its own value, and nothing else. */
  ghost predicate ReadTo(raw: seq<Bytes>, n: nat, read: map<Bytes, Bytes>)
    requires n <= |raw|
  {
    && (forall i :: 0 <= i < n && i % 2 == 0 ==> i + 1 < n && raw[i] in read && read[raw[i]] == raw[i + 1])
    && (forall key :: key in read ==> exists i :: 0 <= i < n && i % 2 == 0 && raw[i] == key)
  }

  lemma ReadOneMore(raw: seq<Bytes>, allowed: set<Bytes>, n: nat, read: map<Bytes, Bytes>)
    requires n % 2 == 0 && n + 1 < |raw| && PairedTo(raw, allowed, n) && ReadTo(raw, n, read)
    ensures raw[n] in read ==> !PairedTo(raw, allowed, |raw|)
    ensures raw[n] !in allowed || !ValidValue(raw[n + 1]) ==> !PairedTo(raw, allowed, |raw|)
    ensures raw[n] in allowed && ValidValue(raw[n + 1]) && raw[n] !in read ==>
            PairedTo(raw, allowed, n + 2) && ReadTo(raw, n + 2, read[raw[n] := raw[n + 1]])
  {
    hide ValidValue, Usable;
    ValidIsUsable(raw[n + 1]);
    if raw[n] in read {
      var i :| 0 <= i < n && i % 2 == 0 && raw[i] == raw[n];
    } else {
      var next := read[raw[n] := raw[n + 1]];
      forall key | key in next ensures exists i :: 0 <= i < n + 2 && i % 2 == 0 && raw[i] == key {
        if key != raw[n] { assert key in read; }
      }
    }
  }

  /** Accepts exactly the well-paired command lines, and reads every option's own value. */
  method ParseOptions(raw: seq<Bytes>, allowed: set<Bytes>) returns (values: Option<map<Bytes, Bytes>>)
    ensures values.Some? <==> WellPaired(raw, allowed)
    ensures values.Some? ==> ReadTo(raw, |raw|, values.value)
  {
    hide ReadTo, ValidValue;
    var read: map<Bytes, Bytes> := map[];
    var index := 0;
    assert ReadTo(raw, 0, read) by { NothingRead(raw); }
    while index < |raw|
      invariant 0 <= index <= |raw| && index % 2 == 0
      invariant PairedTo(raw, allowed, index) && ReadTo(raw, index, read)
    {
      var key := raw[index];
      if key !in allowed || index + 1 >= |raw| { return None; }
      ReadOneMore(raw, allowed, index, read);
      if key in read { return None; }
      var value := raw[index + 1];
      if !ValidValue(value) { return None; }
      read := read[key := value];
      index := index + 2;
    }
    return Some(read);
  }

  lemma NothingRead(raw: seq<Bytes>) ensures ReadTo(raw, 0, map[]) {}
}
