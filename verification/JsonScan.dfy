/** What the scanner decides, position by position, and why that is the grammar.

    The functions follow the recursion of the scanner without its state; the class that mutates an
    index is proved equal to them. `ScanSound` and `ScanComplete` tie them to the grammar. */
module JsonScan {
  import opened Common
  import opened JsonGrammar

  datatype Outcome = Done(next: nat) | Malformed | Duplicate

  datatype StringOutcome<+Key> = StringDone(next: nat, key: Key) | StringBad

  function SkipSpace(s: Bytes, i: nat): (r: nat)
    requires i <= |s|
    ensures i <= r <= |s| && Spaces(s[i..r]) && (r < |s| ==> !IsSpace(s[r]))
    decreases |s| - i
  {
    if i < |s| && IsSpace(s[i]) then SkipSpace(s, i + 1) else i
  }

  predicate ByteAt(s: Bytes, i: nat, b: Byte) { i < |s| && s[i] == b }

  /** Where the string whose characters start at `i` ends, one past its closing quote. */
  function StringEnd(s: Bytes, i: nat): (r: Option<nat>)
    requires i <= |s|
    ensures r.Some? ==> i < r.value <= |s|
    decreases |s| - i
  {
    if i == |s| then None
    else if s[i] == 34 then Some(i + 1)
    else if s[i] == 92 then
      if i + 1 == |s| then None
      else if s[i + 1] == 117 then
        if i + 6 <= |s| && IsHex(s[i + 2]) && IsHex(s[i + 3]) && IsHex(s[i + 4]) && IsHex(s[i + 5])
        then StringEnd(s, i + 6) else None
      else if IsSimpleEscape(s[i + 1]) then StringEnd(s, i + 2)
      else None
    else if s[i] < 0x20 then None
    else StringEnd(s, i + 1)
  }

  function ScanString<Key>(o: Oracle<Key>, s: Bytes, i: nat): (r: StringOutcome<Key>)
    requires i <= |s|
    ensures r.StringDone? ==> i + 1 < r.next <= |s|
  {
    if !ByteAt(s, i, 34) then StringBad
    else match StringEnd(s, i + 1)
      case None => StringBad
      case Some(n) => match o.decode(s[i..n])
        case None => StringBad
        case Some(key) => StringDone(n, key)
  }

  lemma NoQuote<Key>(o: Oracle<Key>, s: Bytes, i: nat)
    requires i <= |s| && !ByteAt(s, i, 34)
    ensures ScanString(o, s, i) == StringBad
  {}

  function NumberEnd(s: Bytes, i: nat): (r: nat)
    requires i <= |s|
    ensures i <= r <= |s| && (r < |s| ==> IsDelimiter(s[r]))
    ensures forall k :: i <= k < r ==> !IsDelimiter(s[k])
    decreases |s| - i
  {
    if i < |s| && !IsDelimiter(s[i]) then NumberEnd(s, i + 1) else i
  }

  function ScanNumber<Key>(o: Oracle<Key>, s: Bytes, i: nat): (r: Outcome)
    requires i <= |s|
    ensures r.Done? ==> i < r.next <= |s|
  {
    var n := NumberEnd(s, i);
    if i < n && o.number(s[i..n]) then Done(n) else Malformed
  }

  function ScanLiteral(s: Bytes, i: nat, literal: Bytes): (r: Outcome)
    requires i <= |s|
    ensures r.Done? ==> r.next == i + |literal| <= |s|
  {
    if i + |literal| <= |s| && s[i..i + |literal|] == literal then Done(i + |literal|) else Malformed
  }

  function ScanValue<Key(==)>(o: Oracle<Key>, s: Bytes, i: nat, depth: nat): (r: Outcome)
    requires i <= |s|
    ensures r.Done? ==> i < r.next <= |s|
    decreases |s| - i, 1
  {
    if depth > MAX_DEPTH then Malformed
    else
      var j := SkipSpace(s, i);
      if j == |s| then Malformed
      else if s[j] == 34 then
        (match ScanString(o, s, j) case StringDone(n, _) => Done(n) case StringBad => Malformed)
      else if s[j] == 91 then ScanArray(o, s, j, depth)
      else if s[j] == 123 then ScanObject(o, s, j, depth)
      else if s[j] == 116 then ScanLiteral(s, j, TRUE)
      else if s[j] == 102 then ScanLiteral(s, j, FALSE)
      else if s[j] == 110 then ScanLiteral(s, j, NULL)
      else if StartsNumber(s[j]) then ScanNumber(o, s, j)
      else Malformed
  }

  function ScanArray<Key(==)>(o: Oracle<Key>, s: Bytes, i: nat, depth: nat): (r: Outcome)
    requires i < |s|
    ensures r.Done? ==> i < r.next <= |s|
    decreases |s| - i, 0
  {
    var j := SkipSpace(s, i + 1);
    if ByteAt(s, j, 93) then Done(j + 1) else ScanItems(o, s, j, depth)
  }

  function ScanItems<Key(==)>(o: Oracle<Key>, s: Bytes, i: nat, depth: nat): (r: Outcome)
    requires i <= |s|
    ensures r.Done? ==> i < r.next <= |s|
    decreases |s| - i, 2
  {
    match ScanValue(o, s, i, depth + 1)
    case Malformed => Malformed
    case Duplicate => Duplicate
    case Done(n) =>
      var k := SkipSpace(s, n);
      if ByteAt(s, k, 93) then Done(k + 1)
      else if ByteAt(s, k, 44) then ScanItems(o, s, k + 1, depth)
      else Malformed
  }

  function ScanObject<Key(==)>(o: Oracle<Key>, s: Bytes, i: nat, depth: nat): (r: Outcome)
    requires i < |s|
    ensures r.Done? ==> i < r.next <= |s|
    decreases |s| - i, 0
  {
    var j := SkipSpace(s, i + 1);
    if ByteAt(s, j, 125) then Done(j + 1) else ScanMembers(o, s, j, depth, {})
  }

  function ScanMembers<Key(==)>(o: Oracle<Key>, s: Bytes, i: nat, depth: nat, keys: set<Key>): (r: Outcome)
    requires i <= |s|
    ensures r.Done? ==> i < r.next <= |s|
    decreases |s| - i, 2
  {
    match ScanString(o, s, SkipSpace(s, i))
    case StringBad => Malformed
    case StringDone(n, key) =>
      if key in keys then Duplicate
      else
        var k := SkipSpace(s, n);
        if !ByteAt(s, k, 58) then Malformed
        else ScanMemberValue(o, s, k + 1, depth, keys + {key})
  }

  /** From just after the colon of a member. */
  function ScanMemberValue<Key(==)>(o: Oracle<Key>, s: Bytes, i: nat, depth: nat, keys: set<Key>): (r: Outcome)
    requires i <= |s|
    ensures r.Done? ==> i < r.next <= |s|
    decreases |s| - i, 2
  {
    match ScanValue(o, s, i, depth + 1)
    case Malformed => Malformed
    case Duplicate => Duplicate
    case Done(m) =>
      var q := SkipSpace(s, m);
      if ByteAt(s, q, 125) then Done(q + 1)
      else if ByteAt(s, q, 44) then ScanMembers(o, s, q + 1, depth, keys)
      else Malformed
  }

  function Scan<Key(==)>(o: Oracle<Key>, s: Bytes): (r: Outcome) {
    var j := SkipSpace(s, 0);
    if !ByteAt(s, j, 123) then Malformed
    else match ScanValue(o, s, j, 0)
      case Malformed => Malformed
      case Duplicate => Duplicate
      case Done(n) => if SkipSpace(s, n) == |s| then Done(|s|) else Malformed
  }

  // Soundness: every accepted stretch of input is the text of a tree.

  lemma {:induction false} StringEndSound(s: Bytes, i: nat)
    requires i <= |s| && StringEnd(s, i).Some?
    ensures var n := StringEnd(s, i).value; s[n - 1] == 34 && StringBody(s[i..n - 1])
    decreases |s| - i
  {
    var n := StringEnd(s, i).value;
    var body := s[i..n - 1];
    if s[i] == 34 {
    } else if s[i] == 92 {
      var step := if s[i + 1] == 117 then 6 else 2;
      StringEndSound(s, i + step);
      assert s[i + step..n - 1] == body[step..];
    } else {
      StringEndSound(s, i + 1);
      assert s[i + 1..n - 1] == body[1..];
    }
  }

  lemma ScanStringSound<Key>(o: Oracle<Key>, s: Bytes, i: nat)
    requires i <= |s| && ScanString(o, s, i).StringDone?
    ensures var r := ScanString(o, s, i);
            StringToken(s[i..r.next]) && o.decode(s[i..r.next]) == Some(r.key)
  {
    var n := ScanString(o, s, i).next;
    StringEndSound(s, i + 1);
    Trim(s, i, n);
  }

  /** `t` is the piece of `s` from `i` to `n`, and `u` from `n` to `m`: together they are the piece from
      `i` to `m`. */
  lemma Join(s: Bytes, i: nat, n: nat, m: nat)
    requires i <= n <= m <= |s|
    ensures s[i..n] + s[n..m] == s[i..m]
  {}

  lemma Trim(s: Bytes, i: nat, n: nat)
    requires i + 2 <= n <= |s|
    ensures s[i..n][1..|s[i..n]| - 1] == s[i + 1..n - 1]
  {
    var t := s[i..n];
    var u := t[1..|t| - 1];
    assert |u| == n - i - 2;
    forall k | 0 <= k < |u| ensures u[k] == s[i + 1..n - 1][k] {
      assert u[k] == t[k + 1];
    }
  }

  lemma SplitByte(s: Bytes, i: nat, n: nat)
    requires i < n <= |s|
    ensures s[i..n] == [s[i]] + s[i + 1..n]
  {}

  /** White space in front of the first item can be moved into it. */
  lemma PrependItems<Key>(o: Oracle<Key>, w: Bytes, items: Items)
    requires items.Item? && Spaces(w) && ItemsShape(o, items)
    ensures var items' := items.(before := w + items.before);
            && ItemsText(items') == w + ItemsText(items) && ItemsShape(o, items')
            && ItemsUnique(o, items') == ItemsUnique(o, items) && ItemsHeight(items') == ItemsHeight(items)
  {
    hide Text, Shape, Unique, Height;
    var items' := items.(before := w + items.before);
    assert ItemsBody(items') == ItemsBody(items);
    assert w + (items.before + ItemsBody(items)) == (w + items.before) + ItemsBody(items);
  }

  lemma PrependMembers<Key>(o: Oracle<Key>, w: Bytes, members: Members)
    requires members.Member? && Spaces(w) && MembersShape(o, members)
    ensures var members' := members.(before := w + members.before);
            && MembersText(members') == w + MembersText(members) && MembersShape(o, members')
            && MembersUnique(o, members') == MembersUnique(o, members)
            && Names(o, members') == Names(o, members) && MembersHeight(members') == MembersHeight(members)
  {
    hide Text, Shape, Unique, Height;
    var members' := members.(before := w + members.before);
    assert MemberValueText(members') == MemberValueText(members);
    assert MembersBody(members') == MembersBody(members);
    assert w + (members.before + MembersBody(members)) == (w + members.before) + MembersBody(members);
  }

  ghost predicate ValueParse<Key>(o: Oracle<Key>, piece: Bytes, depth: nat, before: Bytes, v: Value) {
    piece == before + Text(v) && Spaces(before) && Shape(o, v) && Unique(o, v) && depth + Height(v) <= MAX_DEPTH
  }

  lemma {:induction false} ValueSound<Key>(o: Oracle<Key>, s: Bytes, i: nat, depth: nat)
    returns (before: Bytes, v: Value)
    requires i <= |s| && ScanValue(o, s, i, depth).Done?
    ensures ValueParse(o, s[i..ScanValue(o, s, i, depth).next], depth, before, v)
    decreases |s| - i, 1
  {
    hide ScanArray, ScanObject, ScanString, StringToken, SkipSpace, Spaces, ItemsText, MembersText;
    var n := ScanValue(o, s, i, depth).next;
    var j := SkipSpace(s, i);
    before := s[i..j];
    Join(s, i, j, n);
    if s[j] == 34 {
      v := Str(s[j..n]);
      ScanStringSound(o, s, j);
    } else if s[j] == 91 {
      v := ArraySound(o, s, j, depth);
    } else if s[j] == 123 {
      v := ObjectSound(o, s, j, depth);
    } else if s[j] == 116 || s[j] == 102 || s[j] == 110 {
      v := Lit(s[j..n]);
    } else {
      v := Num(s[j..n]);
    }
  }

  lemma {:induction false} ArraySound<Key>(o: Oracle<Key>, s: Bytes, i: nat, depth: nat) returns (v: Value)
    requires ByteAt(s, i, 91) && depth <= MAX_DEPTH && ScanArray(o, s, i, depth).Done?
    ensures ValueParse(o, s[i..ScanArray(o, s, i, depth).next], depth, [], v)
    decreases |s| - i, 0
  {
    hide ScanItems, ItemsShape, ItemsUnique, ItemsHeight, ItemsText;
    var n := ScanArray(o, s, i, depth).next;
    var j := SkipSpace(s, i + 1);
    SplitByte(s, i, n);
    Join(s, i + 1, j, n);
    if ByteAt(s, j, 93) {
      v := EmptyArr(s[i + 1..j]);
      assert s[j..n] == [93];
    } else {
      var items := ItemsSound(o, s, j, depth);
      // The scanner skips the white space after the bracket; it belongs to the first item.
      PrependItems(o, s[i + 1..j], items);
      v := Arr(items.(before := s[i + 1..j] + items.before));
    }
    assert [] + Text(v) == Text(v);
  }

  lemma ItemsTextParts(items: Items)
    requires items.Item?
    ensures ItemsText(items)
         == (items.before + Text(items.value))
            + (items.after + if items.rest.NoItems? then [93] else [44] + ItemsText(items.rest))
  {
    hide Text;
  }

  lemma MemberValueParts(m: Members)
    requires m.Member?
    ensures MemberValueText(m)
         == (m.beforeValue + Text(m.value))
            + (m.after + if m.rest.NoMembers? then [125] else [44] + MembersText(m.rest))
  {
    hide Text;
  }

  lemma {:induction false} ItemsSound<Key>(o: Oracle<Key>, s: Bytes, i: nat, depth: nat) returns (items: Items)
    requires i <= |s| && ScanItems(o, s, i, depth).Done?
    ensures items.Item? && ItemsText(items) == s[i..ScanItems(o, s, i, depth).next]
    ensures ItemsShape(o, items) && ItemsUnique(o, items) && depth + 1 + ItemsHeight(items) <= MAX_DEPTH
    decreases |s| - i, 2
  {
    hide ScanValue, Text, Shape, Unique, Height, SkipSpace, Spaces, ItemsText;
    var end := ScanItems(o, s, i, depth).next;
    var before, v := ValueSound(o, s, i, depth + 1);
    var n := ScanValue(o, s, i, depth + 1).next;
    var k := SkipSpace(s, n);
    var rest := NoItems;
    if ByteAt(s, k, 93) {
      assert s[k..end] == [93];
    } else {
      rest := ItemsSound(o, s, k + 1, depth);
      assert s[k..end] == [44] + s[k + 1..end];
    }
    items := Item(before, v, s[n..k], rest);
    Join(s, n, k, end);
    Join(s, i, n, end);
    ItemsTextParts(items);
  }

  lemma {:induction false} ObjectSound<Key>(o: Oracle<Key>, s: Bytes, i: nat, depth: nat) returns (v: Value)
    requires ByteAt(s, i, 123) && depth <= MAX_DEPTH && ScanObject(o, s, i, depth).Done?
    ensures v.EmptyObj? || v.Obj?
    ensures ValueParse(o, s[i..ScanObject(o, s, i, depth).next], depth, [], v)
    decreases |s| - i, 0
  {
    hide ScanMembers, MembersShape, MembersUnique, MembersHeight, MembersText, Distinct, Names;
    var n := ScanObject(o, s, i, depth).next;
    var j := SkipSpace(s, i + 1);
    SplitByte(s, i, n);
    Join(s, i + 1, j, n);
    if ByteAt(s, j, 125) {
      v := EmptyObj(s[i + 1..j]);
      assert s[j..n] == [125];
    } else {
      var members := MembersSound(o, s, j, depth, {});
      PrependMembers(o, s[i + 1..j], members);
      v := Obj(members.(before := s[i + 1..j] + members.before));
    }
    assert [] + Text(v) == Text(v);
  }

  lemma {:induction false} MembersSound<Key>(o: Oracle<Key>, s: Bytes, i: nat, depth: nat, keys: set<Key>)
    returns (members: Members)
    requires i <= |s| && ScanMembers(o, s, i, depth, keys).Done?
    ensures members.Member? && MembersText(members) == s[i..ScanMembers(o, s, i, depth, keys).next]
    ensures MembersShape(o, members) && MembersFresh(o, members, keys)
    ensures depth + 1 + MembersHeight(members) <= MAX_DEPTH
    decreases |s| - i, 2
  {
    hide ScanMemberValue, ScanString, Text, Shape, Unique, Height, StringToken, MembersFresh, MemberValueText;
    var end := ScanMembers(o, s, i, depth, keys).next;
    var j := SkipSpace(s, i);
    var name := ScanString(o, s, j);
    var n := name.next;
    ScanStringSound(o, s, j);
    var k := SkipSpace(s, n);
    var tail := MemberValueSound(o, s, k + 1, depth, keys + {name.key});
    members := tail.(before := s[i..j], name := s[j..n], beforeColon := s[n..k]);
    FreshStep(o, members, keys);
    SameValueText(tail, members);
    SplitByte(s, k, end);
    Join(s, n, k, end);
    Join(s, j, n, end);
    Join(s, i, j, end);
  }

  lemma SameValueText(a: Members, b: Members)
    requires a.Member? && b.Member? && b == a.(before := b.before, name := b.name, beforeColon := b.beforeColon)
    ensures MemberValueText(a) == MemberValueText(b)
  {}

  /** A member from just after its colon; the parts in front of that are left empty. */
  lemma {:induction false} MemberValueSound<Key>(o: Oracle<Key>, s: Bytes, i: nat, depth: nat, keys: set<Key>)
    returns (m: Members)
    requires i <= |s| && ScanMemberValue(o, s, i, depth, keys).Done?
    ensures m.Member? && MemberValueText(m) == s[i..ScanMemberValue(o, s, i, depth, keys).next]
    ensures Spaces(m.beforeValue) && Shape(o, m.value) && Spaces(m.after) && MembersShape(o, m.rest)
    ensures Unique(o, m.value) && MembersFresh(o, m.rest, keys) && depth + 1 + MembersHeight(m) <= MAX_DEPTH
    decreases |s| - i, 2
  {
    hide ScanValue, ScanMembers, Text, Shape, Unique, Height, MembersFresh, MembersText, MemberValueText,
         SkipSpace, Spaces;
    var end := ScanMemberValue(o, s, i, depth, keys).next;
    var before, v := ValueSound(o, s, i, depth + 1);
    var n := ScanValue(o, s, i, depth + 1).next;
    var q := SkipSpace(s, n);
    var rest := NoMembers;
    if ByteAt(s, q, 125) {
      assert s[q..end] == [125];
      NothingFresh(o, keys);
    } else {
      rest := MembersSound(o, s, q + 1, depth, keys);
      SplitByte(s, q, end);
    }
    m := Member([], [], [], before, v, s[n..q], rest);
    Join(s, n, q, end);
    Join(s, i, n, end);
    MemberValueParts(m);
  }

  /** No name in `names` is one of `keys`. */
  ghost predicate Fresh<Key>(names: seq<Option<Key>>, keys: set<Key>) {
    forall i :: 0 <= i < |names| ==> names[i].Some? ==> names[i].value !in keys
  }

  lemma FreshCons<Key>(names: seq<Option<Key>>, keys: set<Key>, key: Key)
    ensures Distinct([Some(key)] + names) && Fresh([Some(key)] + names, keys)
            <==> key !in keys && Distinct(names) && Fresh(names, keys + {key})
  {
    var all := [Some(key)] + names;
    assert all[0] == Some(key);
    assert forall i :: 0 <= i < |names| ==> all[i + 1] == names[i];
    if Distinct(all) && Fresh(all, keys) {
      forall i | 0 <= i < |names| && names[i].Some? ensures names[i].value !in keys + {key} {
        assert all[0] != all[i + 1];
      }
      forall i, j | 0 <= i < j < |names| ensures names[i] != names[j] {
        assert all[i + 1] != all[j + 1];
      }
    }
    if key !in keys && Distinct(names) && Fresh(names, keys + {key}) {
      forall i, j | 0 <= i < j < |all| ensures all[i] != all[j] {
        if i == 0 { assert all[j] == names[j - 1]; } else { assert all[i] == names[i - 1] && all[j] == names[j - 1]; }
      }
      forall i | 0 <= i < |all| && all[i].Some? ensures all[i].value !in keys {
        if i > 0 { assert all[i] == names[i - 1]; }
      }
    }
  }

  // Completeness: the text of every tree, followed by what may follow a value, is scanned to its end
  // exactly when its names are unique and it is not too deep.

  ghost predicate At(s: Bytes, i: nat, t: Bytes) { i + |t| <= |s| && s[i..i + |t|] == t }

  lemma AtSplit(s: Bytes, i: nat, a: Bytes, b: Bytes)
    requires At(s, i, a + b)
    ensures At(s, i, a) && At(s, i + |a|, b)
  {
    assert s[i..i + |a| + |b|][..|a|] == a;
    assert s[i..i + |a| + |b|][|a|..] == b;
  }

  lemma AtByte(s: Bytes, i: nat, b: Byte, t: Bytes)
    requires At(s, i, [b] + t)
    ensures ByteAt(s, i, b) && At(s, i + 1, t)
  {
    AtSplit(s, i, [b], t);
    assert s[i..i + 1][0] == b;
  }

  lemma {:induction false} SkipSpaceAt(s: Bytes, i: nat, w: Bytes)
    requires At(s, i, w) && Spaces(w)
    requires i + |w| < |s| ==> !IsSpace(s[i + |w|])
    ensures SkipSpace(s, i) == i + |w|
    decreases |w|
  {
    if w != [] {
      assert w == [w[0]] + w[1..];
      AtByte(s, i, w[0], w[1..]);
      SkipSpaceAt(s, i + 1, w[1..]);
    }
  }

  lemma AtIndex(s: Bytes, i: nat, t: Bytes, k: nat)
    requires At(s, i, t) && k < |t|
    ensures i + k < |s| && s[i + k] == t[k]
  {
    assert s[i..i + |t|][k] == s[i + k];
  }

  lemma {:induction false} StringEndAt(s: Bytes, i: nat, body: Bytes)
    requires At(s, i, body + [34]) && StringBody(body)
    ensures StringEnd(s, i) == Some(i + |body| + 1)
    decreases |body|
  {
    hide At, IsHex, IsSimpleEscape;
    var t := body + [34];
    AtIndex(s, i, t, 0);
    if body != [] {
      var step := if body[0] == 92 then if body[1] == 117 then 6 else 2 else 1;
      if step > 1 { AtIndex(s, i, t, 1); }
      if step > 2 {
        AtIndex(s, i, t, 2);
        AtIndex(s, i, t, 3);
        AtIndex(s, i, t, 4);
        AtIndex(s, i, t, 5);
      }
      assert t == body[..step] + (body[step..] + [34]);
      AtSplit(s, i, body[..step], body[step..] + [34]);
      StringEndAt(s, i + step, body[step..]);
    }
  }

  lemma ScanStringAt<Key>(o: Oracle<Key>, s: Bytes, i: nat, t: Bytes)
    requires At(s, i, t) && StringToken(t) && o.decode(t).Some?
    ensures ScanString(o, s, i) == StringDone(i + |t|, o.decode(t).value)
  {
    var body := t[1..|t| - 1];
    assert t == [34] + (body + [34]);
    AtByte(s, i, 34, body + [34]);
    StringEndAt(s, i + 1, body);
  }

  lemma {:induction false} NumberEndAt(s: Bytes, i: nat, t: Bytes)
    requires At(s, i, t) && forall k :: 0 <= k < |t| ==> !IsDelimiter(t[k])
    requires i + |t| < |s| ==> IsDelimiter(s[i + |t|])
    ensures NumberEnd(s, i) == i + |t|
    decreases |t|
  {
    if t != [] {
      assert t == [t[0]] + t[1..];
      AtByte(s, i, t[0], t[1..]);
      NumberEndAt(s, i + 1, t[1..]);
    }
  }

  /** What may stand right after a value: the end of the input or a delimiter. */
  ghost predicate Follows(s: Bytes, i: nat) { i <= |s| && (i < |s| ==> IsDelimiter(s[i])) }

  ghost predicate Verdict(r: Outcome, unique: bool, fits: bool, end: nat) {
    && (r == Done(end) <==> unique && fits)
    && (r.Done? ==> unique && fits)
    && (fits && !unique ==> r == Duplicate)
  }

  lemma TextStart<Key>(o: Oracle<Key>, v: Value)
    requires Shape(o, v)
    ensures |Text(v)| > 0 && !IsSpace(Text(v)[0])
    ensures v.Str? <==> Text(v)[0] == 34
    ensures v.EmptyArr? || v.Arr? <==> Text(v)[0] == 91
    ensures v.EmptyObj? || v.Obj? <==> Text(v)[0] == 123
    ensures v.Num? <==> StartsNumber(Text(v)[0])
    ensures v.Lit? ==> Text(v)[0] == (if v.token == TRUE then 116 else if v.token == FALSE then 102 else 110)
    ensures Text(v)[0] != 93
  {
    match v {
      case Lit(t) => assert TRUE[0] == 116 && FALSE[0] == 102 && NULL[0] == 110;
      case _ =>
    }
  }

  lemma {:induction false} ValueComplete<Key>(o: Oracle<Key>, s: Bytes, i: nat, depth: nat, before: Bytes, v: Value)
    requires At(s, i, before + Text(v)) && Spaces(before) && Shape(o, v)
    requires Follows(s, i + |before| + |Text(v)|)
    ensures Verdict(ScanValue(o, s, i, depth), Unique(o, v), depth + Height(v) <= MAX_DEPTH,
                    i + |before| + |Text(v)|)
    decreases v, 1
  {
    hide ScanArray, ScanObject, ScanString, ScanMembers, ScanItems, StringToken, ItemsBody, MembersBody, ItemsShape, MembersShape;
    if depth <= MAX_DEPTH {
      AtSplit(s, i, before, Text(v));
      TextStart(o, v);
      var j := i + |before|;
      AtFirst(s, j, Text(v));
      SkipSpaceAt(s, i, before);
      match v {
        case Str(t) => ScanStringAt(o, s, j, t);
        case Num(t) => NumberEndAt(s, j, t);
        case Lit(t) =>
        case EmptyArr(_) => ArrayComplete(o, s, j, depth, v);
        case Arr(_) => ArrayComplete(o, s, j, depth, v);
        case EmptyObj(_) => ObjectComplete(o, s, j, depth, v);
        case Obj(_) => ObjectComplete(o, s, j, depth, v);
      }
    }
  }

  lemma ItemsStart<Key>(o: Oracle<Key>, items: Items)
    requires items.Item? && ItemsShape(o, items)
    ensures Spaces(items.before)
    ensures ItemsBody(items) != [] && !IsSpace(ItemsBody(items)[0]) && ItemsBody(items)[0] != 93
  {
    TextStart(o, items.value);
  }

  lemma MembersStart<Key>(o: Oracle<Key>, members: Members)
    requires members.Member? && MembersShape(o, members)
    ensures Spaces(members.before)
    ensures MembersBody(members) != [] && MembersBody(members)[0] == 34
  {}

  lemma {:induction false} ArrayComplete<Key>(o: Oracle<Key>, s: Bytes, i: nat, depth: nat, v: Value)
    requires At(s, i, Text(v)) && (v.EmptyArr? || v.Arr?) && Shape(o, v) && depth <= MAX_DEPTH
    ensures Verdict(ScanArray(o, s, i, depth), Unique(o, v), depth + Height(v) <= MAX_DEPTH, i + |Text(v)|)
    decreases v, 0
  {
    hide ScanItems, ItemsUnique, ItemsHeight, ItemsShape, At, ItemsBody, SkipSpace, Unique, Text, Shape, Height, Spaces;
    ArrayParts(o, v);
    EmptySpaces();
    match v
    case EmptyArr(w) =>
      InsideAt(s, i, 91, w, [93]);
    case Arr(items) =>
      ItemsStart(o, items);
      InsideAt(s, i, 91, items.before, ItemsBody(items));
      assert [] + ItemsBody(items) == ItemsBody(items);
      ItemsComplete(o, s, i + 1 + |items.before|, depth, [], items);
  }

  /** An opening byte, white space, and the first byte inside. */
  lemma InsideAt(s: Bytes, i: nat, open: Byte, w: Bytes, body: Bytes)
    requires At(s, i, [open] + (w + body)) && Spaces(w) && body != [] && !IsSpace(body[0])
    ensures var j := i + 1 + |w|;
            ByteAt(s, i, open) && SkipSpace(s, i + 1) == j && At(s, j, body) && ByteAt(s, j, body[0])
  {
    hide SkipSpace, At, Spaces;
    AtByte(s, i, open, w + body);
    AtSplit(s, i + 1, w, body);
    AtFirst(s, i + 1 + |w|, body);
    SkipSpaceAt(s, i + 1, w);
  }

  /** The loop of an array, with any white space standing where the first item's would. */
  lemma {:induction false} ItemsComplete<Key>(o: Oracle<Key>, s: Bytes, i: nat, depth: nat, before: Bytes, items: Items)
    requires items.Item? && At(s, i, before + ItemsBody(items)) && Spaces(before) && ItemsShape(o, items)
    ensures Verdict(ScanItems(o, s, i, depth), ItemsUnique(o, items),
                    depth + 1 + ItemsHeight(items) <= MAX_DEPTH, i + |before| + |ItemsBody(items)|)
    decreases items, 2
  {
    hide ScanValue, Text, Shape, Unique, Height, SkipSpace, At, Spaces, Follows, ItemsBody;
    ItemsAt(s, i, before, items);
    var rest := items.rest;
    var k := i + |before| + |Text(items.value)| + |items.after| + 1;
    ValueComplete(o, s, i, depth + 1, before, items.value);
    var r := ScanItems(o, s, i, depth);
    if !ScanValue(o, s, i, depth + 1).Done? {
      assert r == ScanValue(o, s, i, depth + 1);
    } else if rest.NoItems? {
      assert r == Done(k);
    } else {
      assert r == ScanItems(o, s, k, depth);
      ItemsComplete(o, s, k, depth, rest.before, rest);
    }
  }

  /** Where the parts of an item lie in the input. */
  lemma ItemsAt(s: Bytes, i: nat, before: Bytes, items: Items)
    requires items.Item? && At(s, i, before + ItemsBody(items)) && Spaces(items.after)
    ensures var n := i + |before| + |Text(items.value)|;
            var k := n + |items.after|;
            && At(s, i, before + Text(items.value)) && Follows(s, n) && SkipSpace(s, n) == k
            && ByteAt(s, k, if items.rest.NoItems? then 93 else 44)
            && (items.rest.Item? ==> At(s, k + 1, items.rest.before + ItemsBody(items.rest)))
            && i + |before| + |ItemsBody(items)|
               == k + 1 + if items.rest.NoItems? then 0 else |items.rest.before| + |ItemsBody(items.rest)|
  {
    hide Text, At, SkipSpace, Follows;
    var value, after, rest := items.value, items.after, items.rest;
    var close: Byte := if rest.NoItems? then 93 else 44;
    var tail := if rest.NoItems? then [] else ItemsText(rest);
    assert before + ItemsBody(items) == (before + Text(value)) + (after + ([close] + tail));
    AtSplit(s, i, before + Text(value), after + ([close] + tail));
    Separator(s, i + |before| + |Text(value)|, after, close, tail);
  }

  /** White space and then a separator or closing byte: what the scanner finds after a value. */
  lemma Separator(s: Bytes, n: nat, after: Bytes, close: Byte, tail: Bytes)
    requires At(s, n, after + ([close] + tail)) && Spaces(after) && IsDelimiter(close) && !IsSpace(close)
    ensures Follows(s, n) && SkipSpace(s, n) == n + |after|
    ensures ByteAt(s, n + |after|, close) && At(s, n + |after| + 1, tail)
  {
    SpaceThenByte(s, n, after, close, tail);
    AtSplit(s, n, after, [close] + tail);
    if after != [] { AtFirst(s, n, after); }
  }

  lemma SpaceThenByte(s: Bytes, n: nat, w: Bytes, b: Byte, tail: Bytes)
    requires At(s, n, w + ([b] + tail)) && Spaces(w) && !IsSpace(b)
    ensures SkipSpace(s, n) == n + |w| && ByteAt(s, n + |w|, b) && At(s, n + |w| + 1, tail)
  {
    hide SkipSpace, At, Spaces;
    AtSplit(s, n, w, [b] + tail);
    AtByte(s, n + |w|, b, tail);
    SkipSpaceAt(s, n, w);
  }

  lemma {:induction false} ObjectComplete<Key>(o: Oracle<Key>, s: Bytes, i: nat, depth: nat, v: Value)
    requires At(s, i, Text(v)) && (v.EmptyObj? || v.Obj?) && Shape(o, v) && depth <= MAX_DEPTH
    ensures Verdict(ScanObject(o, s, i, depth), Unique(o, v), depth + Height(v) <= MAX_DEPTH, i + |Text(v)|)
    decreases v, 0
  {
    hide ScanMembers, MembersHeight, MembersShape, At, MembersBody, SkipSpace, Unique, MembersFresh, Text, Shape,
         Height, Spaces;
    ObjectParts(o, v);
    EmptySpaces();
    match v
    case EmptyObj(w) =>
      InsideAt(s, i, 123, w, [125]);
    case Obj(members) =>
      MembersStart(o, members);
      InsideAt(s, i, 123, members.before, MembersBody(members));
      assert [] + MembersBody(members) == MembersBody(members);
      MembersComplete(o, s, i + 1 + |members.before|, depth, {}, [], members);
  }

  lemma {:induction false} MembersComplete<Key>(o: Oracle<Key>, s: Bytes, i: nat, depth: nat, keys: set<Key>,
                                                before: Bytes, members: Members)
    requires members.Member? && At(s, i, before + MembersBody(members)) && Spaces(before) && MembersShape(o, members)
    ensures Verdict(ScanMembers(o, s, i, depth, keys), MembersFresh(o, members, keys),
                    depth + 1 + MembersHeight(members) <= MAX_DEPTH, i + |before| + |MembersBody(members)|)
    decreases members, 3
  {
    hide ScanMembers, ScanMemberValue, Shape, Unique, Height, MembersFresh, MemberValueText, MembersHeight, At;
    ScanMembersAt(o, s, i, depth, keys, before, members);
    FreshStep(o, members, keys);
    var key := o.decode(members.name).value;
    if key !in keys {
      var k := i + |before| + |members.name| + |members.beforeColon| + 1;
      MemberValueComplete(o, s, k, depth, keys + {key}, members);
    }
  }

  /** The scanner reads a member's name and colon, and stops there if the name was seen before. */
  lemma ScanMembersAt<Key>(o: Oracle<Key>, s: Bytes, i: nat, depth: nat, keys: set<Key>, before: Bytes, members: Members)
    requires members.Member? && At(s, i, before + MembersBody(members)) && Spaces(before) && MembersShape(o, members)
    ensures var k := i + |before| + |members.name| + |members.beforeColon| + 1;
            var key := o.decode(members.name).value;
            && At(s, k, MemberValueText(members))
            && ScanMembers(o, s, i, depth, keys) ==
               if key in keys then Duplicate else ScanMemberValue(o, s, k, depth, keys + {key})
  {
    hide ScanMemberValue, ScanString, Shape, At, MemberValueText, MembersBody, SkipSpace, Spaces, StringToken, Text;
    MemberNameAt(o, s, i, before, members);
    assert SkipSpace(s, i) == i + |before|;
  }

  lemma SpaceThenBody<Key>(o: Oracle<Key>, s: Bytes, i: nat, before: Bytes, members: Members)
    requires members.Member? && At(s, i, before + MembersBody(members)) && Spaces(before) && MembersShape(o, members)
    ensures SkipSpace(s, i) == i + |before| && At(s, i + |before|, MembersBody(members))
  {
    hide SkipSpace, At, Spaces, MembersBody, MembersShape;
    MembersStart(o, members);
    AtSplit(s, i, before, MembersBody(members));
    AtFirst(s, i + |before|, MembersBody(members));
    SkipSpaceAt(s, i, before);
  }

  lemma MemberNameAt<Key>(o: Oracle<Key>, s: Bytes, i: nat, before: Bytes, members: Members)
    requires members.Member? && At(s, i, before + MembersBody(members)) && Spaces(before) && MembersShape(o, members)
    ensures var j := i + |before|;
            var n := j + |members.name|;
            var k := n + |members.beforeColon|;
            && k < |s| && SkipSpace(s, i) == j
            && ScanString(o, s, j) == StringDone(n, o.decode(members.name).value)
            && SkipSpace(s, n) == k && ByteAt(s, k, 58) && At(s, k + 1, MemberValueText(members))
  {
    hide ScanString, Shape, At, MemberValueText, SkipSpace, Spaces, StringToken, Text;
    var j := i + |before|;
    SpaceThenBody(o, s, i, before, members);
    AtSplit(s, j, members.name, members.beforeColon + ([58] + MemberValueText(members)));
    ScanStringAt(o, s, j, members.name);
    var n := j + |members.name|;
    SpaceThenByte(s, n, members.beforeColon, 58, MemberValueText(members));
  }

  lemma {:induction false} MemberValueComplete<Key>(o: Oracle<Key>, s: Bytes, i: nat, depth: nat, keys: set<Key>,
                                                    members: Members)
    requires members.Member? && At(s, i, MemberValueText(members)) && MembersShape(o, members)
    ensures Verdict(ScanMemberValue(o, s, i, depth, keys), Unique(o, members.value) && MembersFresh(o, members.rest, keys),
                    depth + 1 + MembersHeight(members) <= MAX_DEPTH, i + |MemberValueText(members)|)
    decreases members, 2
  {
    hide ScanValue, ScanMembers, Text, Shape, Unique, Height, SkipSpace, MembersFresh, MembersBody, MemberValueText,
         At, Spaces, Follows;
    MemberValueAt(s, i, members);
    var before, rest := members.beforeValue, members.rest;
    var k := i + |before| + |Text(members.value)| + |members.after| + 1;
    ValueComplete(o, s, i, depth + 1, before, members.value);
    NothingFresh(o, keys);
    var r := ScanMemberValue(o, s, i, depth, keys);
    if !ScanValue(o, s, i, depth + 1).Done? {
      assert r == ScanValue(o, s, i, depth + 1);
    } else if rest.NoMembers? {
      assert r == Done(k);
    } else {
      assert r == ScanMembers(o, s, k, depth, keys);
      MembersComplete(o, s, k, depth, keys, rest.before, rest);
    }
  }

  lemma MemberValueAt(s: Bytes, i: nat, members: Members)
    requires members.Member? && At(s, i, MemberValueText(members)) && Spaces(members.after)
    ensures var n := i + |members.beforeValue| + |Text(members.value)|;
            var k := n + |members.after|;
            && At(s, i, members.beforeValue + Text(members.value)) && Follows(s, n) && SkipSpace(s, n) == k
            && ByteAt(s, k, if members.rest.NoMembers? then 125 else 44)
            && (members.rest.Member? ==> At(s, k + 1, members.rest.before + MembersBody(members.rest)))
            && i + |MemberValueText(members)|
               == k + 1 + if members.rest.NoMembers? then 0 else |members.rest.before| + |MembersBody(members.rest)|
  {
    hide Text, At, SkipSpace, Follows, MembersBody;
    var before, value, after, rest := members.beforeValue, members.value, members.after, members.rest;
    var close: Byte := if rest.NoMembers? then 125 else 44;
    var tail := if rest.NoMembers? then [] else MembersText(rest);
    assert MemberValueText(members) == (before + Text(value)) + (after + ([close] + tail));
    AtSplit(s, i, before + Text(value), after + ([close] + tail));
    Separator(s, i + |before| + |Text(value)|, after, close, tail);
  }

  /** The names of these members are pairwise distinct, none is in `keys`, and the values inside repeat none. */
  ghost predicate MembersFresh<Key>(o: Oracle<Key>, members: Members, keys: set<Key>) {
    Distinct(Names(o, members)) && Fresh(Names(o, members), keys) && MembersUnique(o, members)
  }

  lemma ObjectParts<Key>(o: Oracle<Key>, v: Value)
    requires Shape(o, v)
    ensures v.EmptyObj? ==> Unique(o, v) && Height(v) == 0 && Text(v) == [123] + (v.inner + [125]) && Spaces(v.inner)
    ensures v.Obj? ==>
      && (Unique(o, v) <==> MembersFresh(o, v.members, {})) && Height(v) == 1 + MembersHeight(v.members)
      && v.members.Member? && MembersShape(o, v.members)
      && Text(v) == [123] + (v.members.before + MembersBody(v.members))
  {}

  lemma ArrayParts<Key>(o: Oracle<Key>, v: Value)
    requires Shape(o, v)
    ensures v.EmptyArr? ==> Unique(o, v) && Height(v) == 0 && Text(v) == [91] + (v.inner + [93]) && Spaces(v.inner)
    ensures v.Arr? ==>
      && (Unique(o, v) <==> ItemsUnique(o, v.items)) && Height(v) == 1 + ItemsHeight(v.items)
      && v.items.Item? && ItemsShape(o, v.items)
      && Text(v) == [91] + (v.items.before + ItemsBody(v.items))
  {}

  lemma FreshStep<Key>(o: Oracle<Key>, members: Members, keys: set<Key>)
    requires members.Member? && o.decode(members.name).Some?
    ensures var key := o.decode(members.name).value;
            MembersFresh(o, members, keys) <==>
            key !in keys && Unique(o, members.value) && MembersFresh(o, members.rest, keys + {key})
  {
    FreshCons(Names(o, members.rest), keys, o.decode(members.name).value);
  }

  lemma NothingFresh<Key>(o: Oracle<Key>, keys: set<Key>)
    ensures MembersFresh(o, NoMembers, keys)
  {}

  lemma AtFirst(s: Bytes, i: nat, t: Bytes)
    requires At(s, i, t) && t != []
    ensures i < |s| && s[i] == t[0]
  {
    assert s[i..i + |t|][0] == s[i];
  }

  // The main results.

  /** For every text of the grammar the verdict is decided by the tree: it is accepted exactly when no object
      repeats a decoded name and no value is too deep, and if only names are at fault the error says so. */
  lemma ScanOfShape<Key>(o: Oracle<Key>, text: Bytes, before: Bytes, root: Value, after: Bytes)
    requires DocumentShape(o, text, before, root, after)
    ensures Scan(o, text).Done? <==> Unique(o, root) && Height(root) <= MAX_DEPTH
    ensures Height(root) <= MAX_DEPTH && !Unique(o, root) ==> Scan(o, text) == Duplicate
  {
    hide ScanValue, At, SkipSpace, Text, Shape, Unique, Height, Follows, Spaces;
    RootAt(o, text, before, root, after);
    assert [] + Text(root) == Text(root);
    EmptySpaces();
    ValueComplete(o, text, |before|, 0, [], root);
  }

  lemma EmptySpaces() ensures Spaces([]) {}

  lemma RootAt<Key>(o: Oracle<Key>, text: Bytes, before: Bytes, root: Value, after: Bytes)
    requires DocumentShape(o, text, before, root, after)
    ensures var n := |before| + |Text(root)|;
            && |before| <= |text| && SkipSpace(text, 0) == |before| && ByteAt(text, |before|, 123)
            && At(text, |before|, Text(root)) && Follows(text, n) && SkipSpace(text, n) == |text|
  {
    hide SkipSpace, Text, Shape, Spaces, At;
    WholeAt(text);
    AtSplit(text, 0, before, Text(root) + after);
    AtSplit(text, |before|, Text(root), after);
    TextStart(o, root);
    AtFirst(text, |before|, Text(root));
    SkipSpaceAt(text, 0, before);
    var n := |before| + |Text(root)|;
    SpaceAfter(text, n, after);
  }

  lemma WholeAt(text: Bytes) ensures At(text, 0, text) { assert text[0..|text|] == text; }

  lemma SpaceAfter(s: Bytes, n: nat, w: Bytes)
    requires At(s, n, w) && Spaces(w) && n + |w| == |s|
    ensures Follows(s, n) && SkipSpace(s, n) == |s|
  {
    SkipSpaceAt(s, n, w);
    if w != [] { AtFirst(s, n, w); }
  }

  /** The scanner accepts exactly the documents of the grammar. */
  lemma ScanIffDocument<Key>(o: Oracle<Key>, text: Bytes)
    ensures Scan(o, text).Done? <==> IsDocument(o, text)
  {
    hide ScanObject, Text, Shape, Unique, Height, SkipSpace;
    if Scan(o, text).Done? {
      var j := SkipSpace(text, 0);
      var n := ScanValue(o, text, j, 0).next;
      var root := ObjectSound(o, text, j, 0);
      Join(text, j, n, |text|);
      Join(text, 0, j, |text|);
      assert text[0..|text|] == text && [] + Text(root) == Text(root);
      assert DocumentParse(o, text, text[0..j], root, text[n..|text|]);
    }
    if IsDocument(o, text) {
      var before, root, after :| DocumentParse(o, text, before, root, after);
      ScanOfShape(o, text, before, root, after);
    }
  }

  // Uniqueness is one condition per object, at every level.

  /** `v` is `root` or one of the values inside it. */
  ghost predicate Within(v: Value, root: Value)
    decreases root
  {
    v == root || (root.Arr? && WithinItems(v, root.items)) || (root.Obj? && WithinMembers(v, root.members))
  }

  ghost predicate WithinItems(v: Value, items: Items)
    decreases items
  {
    items.Item? && (Within(v, items.value) || WithinItems(v, items.rest))
  }

  ghost predicate WithinMembers(v: Value, members: Members)
    decreases members
  {
    members.Member? && (Within(v, members.value) || WithinMembers(v, members.rest))
  }

  ghost predicate OwnNamesDistinct<Key>(o: Oracle<Key>, v: Value) { v.Obj? ==> Distinct(Names(o, v.members)) }

  /** A tree is unique exactly when every object in it, taken by itself, has distinct decoded names. */
  lemma {:induction false} UniqueExactly<Key>(o: Oracle<Key>, root: Value)
    ensures Unique(o, root) <==> forall v :: Within(v, root) ==> OwnNamesDistinct(o, v)
    decreases root
  {
    match root
    case Arr(items) =>
      ItemsUniqueExactly(o, items);
      assert forall v :: WithinItems(v, items) ==> Within(v, root);
    case Obj(members) =>
      MembersUniqueExactly(o, members);
      assert Within(root, root) && OwnNamesDistinct(o, root) == Distinct(Names(o, members));
      assert forall v :: WithinMembers(v, members) ==> Within(v, root);
    case _ =>
      assert Unique(o, root);
  }

  lemma {:induction false} ItemsUniqueExactly<Key>(o: Oracle<Key>, items: Items)
    ensures ItemsUnique(o, items) <==> forall v :: WithinItems(v, items) ==> OwnNamesDistinct(o, v)
    decreases items
  {
    if items.Item? {
      UniqueExactly(o, items.value);
      ItemsUniqueExactly(o, items.rest);
      assert forall v :: Within(v, items.value) ==> WithinItems(v, items);
      assert forall v :: WithinItems(v, items.rest) ==> WithinItems(v, items);
    }
  }

  lemma {:induction false} MembersUniqueExactly<Key>(o: Oracle<Key>, members: Members)
    ensures MembersUnique(o, members) <==> forall v :: WithinMembers(v, members) ==> OwnNamesDistinct(o, v)
    decreases members
  {
    if members.Member? {
      UniqueExactly(o, members.value);
      MembersUniqueExactly(o, members.rest);
      assert forall v :: Within(v, members.value) ==> WithinMembers(v, members);
      assert forall v :: WithinMembers(v, members.rest) ==> WithinMembers(v, members);
    }
  }

  /** Inside one object, at whatever level, two spellings of one name are always rejected, wherever the members stand
      and whatever their values are. */
  lemma RepeatedNameRejected<Key>(o: Oracle<Key>, text: Bytes, before: Bytes, root: Value, after: Bytes, v: Value, i: nat, j: nat)
    requires DocumentShape(o, text, before, root, after) && Within(v, root) && v.Obj?
    requires i < j < |Names(o, v.members)| && Names(o, v.members)[i] == Names(o, v.members)[j]
    ensures !Scan(o, text).Done?
    ensures Height(root) <= MAX_DEPTH ==> Scan(o, text) == Duplicate
  {
    hide Scan, DocumentShape, Within, Unique;
    UniqueExactly(o, root);
    ScanOfShape(o, text, before, root, after);
    assert !OwnNamesDistinct(o, v);
  }

  /** A name may be used again one level down: an object with a single member is accepted exactly when the
      member's value could be accepted one level down, whatever names that value uses. */
  lemma NestedNameAllowed<Key>(o: Oracle<Key>, name: Bytes, value: Value)
    requires StringToken(name) && o.decode(name).Some? && Shape(o, value)
    ensures var root := Obj(Member([], name, [], [], value, [], NoMembers));
            Scan(o, Text(root)).Done? <==> Unique(o, value) && Height(value) < MAX_DEPTH
  {
    var members := Member([], name, [], [], value, [], NoMembers);
    assert MembersShape(o, members) && Distinct(Names(o, members));
    var root := Obj(members);
    assert Text(root) == [] + (Text(root) + []);
    assert MembersUnique(o, members) == Unique(o, value);
    assert MembersHeight(members) == Max(Height(value), MembersHeight(NoMembers)) == Height(value);
    ScanOfShape(o, Text(root), [], root, []);
  }

  // With a reader that accepts the numbers of section 6, the language is that of the RFC.

  ghost predicate ReadsRfcNumbers<Key>(o: Oracle<Key>) {
    forall t: Bytes :: NumberShape(t) ==> (o.number(t) <==> RfcNumber(t))
  }

  lemma RfcNumberShape(t: Bytes)
    requires RfcNumber(t)
    ensures NumberShape(t)
  {
    var minus, whole, frac, exp :| NumberParts(t, minus, whole, frac, exp);
    NoDelimiter(whole, frac, exp);
    assert t[0] == if minus then 45 else whole[0];
  }

  lemma NoDelimiter(whole: Bytes, frac: Bytes, exp: Bytes)
    requires IntPart(whole) && FracPart(frac) && ExpPart(exp)
    ensures forall i :: 0 <= i < |whole| ==> !IsDelimiter(whole[i])
    ensures forall i :: 0 <= i < |frac| ==> !IsDelimiter(frac[i])
    ensures forall i :: 0 <= i < |exp| ==> !IsDelimiter(exp[i])
  {
    forall i | 0 <= i < |frac| ensures !IsDelimiter(frac[i]) {
      if i > 0 { assert frac[i] == frac[1..][i - 1]; }
    }
    forall i | 0 <= i < |exp| ensures !IsDelimiter(exp[i]) {
      if i > 0 && Digits(exp[1..]) { assert exp[i] == exp[1..][i - 1]; }
      if i > 1 && !Digits(exp[1..]) { assert exp[i] == exp[2..][i - 2]; }
    }
  }

  /** Trees of the RFC itself: tokens by its grammar alone, strings that can be decoded, no word about delimiters. */
  ghost predicate RfcTree<Key>(o: Oracle<Key>, v: Value) {
    match v
    case Str(t) => StringToken(t) && o.decode(t).Some?
    case Num(t) => RfcNumber(t)
    case Lit(t) => t == TRUE || t == FALSE || t == NULL
    case EmptyArr(w) => Spaces(w)
    case Arr(items) => items.Item? && RfcItems(o, items)
    case EmptyObj(w) => Spaces(w)
    case Obj(members) => members.Member? && RfcMembers(o, members)
  }

  ghost predicate RfcItems<Key>(o: Oracle<Key>, items: Items) {
    items.Item? ==> Spaces(items.before) && RfcTree(o, items.value) && Spaces(items.after) && RfcItems(o, items.rest)
  }

  ghost predicate RfcMembers<Key>(o: Oracle<Key>, members: Members) {
    members.Member? ==>
      && Spaces(members.before) && StringToken(members.name) && o.decode(members.name).Some?
      && Spaces(members.beforeColon) && Spaces(members.beforeValue) && RfcTree(o, members.value) && Spaces(members.after)
      && RfcMembers(o, members.rest)
  }

  ghost predicate RfcParse<Key>(o: Oracle<Key>, text: Bytes, before: Bytes, root: Value, after: Bytes) {
    && text == before + (Text(root) + after) && Spaces(before) && Spaces(after)
    && (root.EmptyObj? || root.Obj?) && RfcTree(o, root) && Unique(o, root) && Height(root) <= MAX_DEPTH
  }

  lemma {:induction false} SameTrees<Key>(o: Oracle<Key>, v: Value)
    requires ReadsRfcNumbers(o)
    ensures Shape(o, v) <==> RfcTree(o, v)
    decreases v, 0
  {
    match v
    case Num(t) => if RfcNumber(t) { RfcNumberShape(t); }
    case Arr(items) => SameItems(o, items);
    case Obj(members) => SameMembers(o, members);
    case _ =>
  }

  lemma {:induction false} SameItems<Key>(o: Oracle<Key>, items: Items)
    requires ReadsRfcNumbers(o)
    ensures ItemsShape(o, items) <==> RfcItems(o, items)
    decreases items, 1
  {
    if items.Item? { SameTrees(o, items.value); SameItems(o, items.rest); }
  }

  lemma {:induction false} SameMembers<Key>(o: Oracle<Key>, members: Members)
    requires ReadsRfcNumbers(o)
    ensures MembersShape(o, members) <==> RfcMembers(o, members)
    decreases members, 1
  {
    if members.Member? { SameTrees(o, members.value); SameMembers(o, members.rest); }
  }

  /** The scanner accepts exactly the RFC's documents with an object at the root, unique names and bounded depth. */
  lemma ScanIffRfcDocument<Key>(o: Oracle<Key>, text: Bytes)
    requires ReadsRfcNumbers(o)
    ensures Scan(o, text).Done? <==>
            exists before: Bytes, root: Value, after: Bytes :: RfcParse(o, text, before, root, after)
  {
    ScanIffDocument(o, text);
    forall before, root, after
      ensures DocumentParse(o, text, before, root, after) <==> RfcParse(o, text, before, root, after)
    {
      SameTrees(o, root);
    }
  }
}
