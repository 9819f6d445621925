/** The concrete syntax of RFC 8259, sections 2 to 7, as parse trees that keep every byte.

    A tree has one text (`Text`). Three facts about a tree are kept apart: its tokens are well
    formed (`Shape`), no object repeats a decoded member name (`Unique`), and how deeply its
    values nest (`Height`). Decoding a string token and accepting a number token belong to the
    platform's JSON reader, so both are fields of an `Oracle`. */
module JsonGrammar {
  import opened Common

  datatype Oracle<!Key> = Oracle(decode: Bytes -> Option<Key>, number: Bytes -> bool)

  predicate IsSpace(b: Byte) { b == 9 || b == 10 || b == 13 || b == 32 }

  predicate Spaces(s: Bytes) { forall i :: 0 <= i < |s| ==> IsSpace(s[i]) }

  // Section 7: strings.

  predicate IsHex(b: Byte) { 48 <= b <= 57 || 65 <= b <= 70 || 97 <= b <= 102 }

  predicate IsSimpleEscape(b: Byte) {
    b == 34 || b == 92 || b == 47 || b == 98 || b == 102 || b == 110 || b == 114 || b == 116
  }

  predicate StringBody(s: Bytes) {
    if s == [] then true
    else if s[0] == 92 then
      |s| >= 2 &&
      if s[1] == 117 then
        |s| >= 6 && IsHex(s[2]) && IsHex(s[3]) && IsHex(s[4]) && IsHex(s[5]) && StringBody(s[6..])
      else
        IsSimpleEscape(s[1]) && StringBody(s[2..])
    else
      s[0] != 34 && s[0] >= 0x20 && StringBody(s[1..])
  }

  predicate StringToken(t: Bytes) {
    |t| >= 2 && t[0] == 34 && t[|t| - 1] == 34 && StringBody(t[1..|t| - 1])
  }

  // Section 6: numbers, as the platform's reader accepts them on a token without delimiters.

  predicate IsDelimiter(b: Byte) { IsSpace(b) || b == 44 || b == 93 || b == 125 }

  predicate StartsNumber(b: Byte) { b == 45 || 48 <= b <= 57 }

  predicate NumberShape(t: Bytes) {
    |t| > 0 && StartsNumber(t[0]) && forall i :: 0 <= i < |t| ==> !IsDelimiter(t[i])
  }

  predicate Digits(s: Bytes) { |s| > 0 && forall i :: 0 <= i < |s| ==> 48 <= s[i] <= 57 }

  predicate IntPart(s: Bytes) { Digits(s) && (|s| > 1 ==> s[0] != 48) }

  predicate FracPart(s: Bytes) { s == [] || (s[0] == 46 && Digits(s[1..])) }

  predicate ExpPart(s: Bytes) {
    s == [] ||
    ((s[0] == 101 || s[0] == 69) &&
     (Digits(s[1..]) || (|s| >= 2 && (s[1] == 43 || s[1] == 45) && Digits(s[2..]))))
  }

  ghost predicate NumberParts(t: Bytes, minus: bool, whole: Bytes, frac: Bytes, exp: Bytes) {
    t == (if minus then [45] else []) + whole + frac + exp && IntPart(whole) && FracPart(frac) && ExpPart(exp)
  }

  /** The number grammar itself. */
  ghost predicate RfcNumber(t: Bytes) {
    exists minus: bool, whole: Bytes, frac: Bytes, exp: Bytes :: NumberParts(t, minus, whole, frac, exp)
  }

  // Section 3: the literal names.

  const TRUE: Bytes := [116, 114, 117, 101]
  const FALSE: Bytes := [102, 97, 108, 115, 101]
  const NULL: Bytes := [110, 117, 108, 108]

  // Sections 4 and 5: parse trees. A `Bytes` field that is not a token is white space.

  datatype Value =
    | Str(token: Bytes)
    | Num(token: Bytes)
    | Lit(token: Bytes)
    | EmptyArr(inner: Bytes)
    | Arr(items: Items)
    | EmptyObj(inner: Bytes)
    | Obj(members: Members)

  datatype Items = NoItems | Item(before: Bytes, value: Value, after: Bytes, rest: Items)

  datatype Members =
    | NoMembers
    | Member(before: Bytes, name: Bytes, beforeColon: Bytes, beforeValue: Bytes, value: Value, after: Bytes,
             rest: Members)

  function Text(v: Value): Bytes
    decreases v, 2
  {
    match v
    case Str(t) => t
    case Num(t) => t
    case Lit(t) => t
    case EmptyArr(w) => [91] + (w + [93])
    case Arr(items) => [91] + if items.Item? then ItemsText(items) else []
    case EmptyObj(w) => [123] + (w + [125])
    case Obj(members) => [123] + if members.Member? then MembersText(members) else []
  }

  /** The items of a nonempty array up to and including its closing bracket. */
  function ItemsText(items: Items): Bytes
    requires items.Item?
    decreases items, 1
  {
    items.before + ItemsBody(items)
  }

  function ItemsBody(items: Items): Bytes
    requires items.Item?
    decreases items, 0
  {
    Text(items.value) + (items.after + if items.rest.NoItems? then [93] else [44] + ItemsText(items.rest))
  }

  /** The members of a nonempty object up to and including its closing brace. */
  function MembersText(members: Members): Bytes
    requires members.Member?
    decreases members, 1
  {
    members.before + MembersBody(members)
  }

  function MembersBody(members: Members): Bytes
    requires members.Member?
    decreases members, 0
  {
    members.name + (members.beforeColon + ([58] + MemberValueText(members)))
  }

  /** A member from just after its colon, and all that follows it. */
  function MemberValueText(members: Members): Bytes
    requires members.Member?
    decreases members, 0, 0
  {
    members.beforeValue
    + (Text(members.value)
       + (members.after + if members.rest.NoMembers? then [125] else [44] + MembersText(members.rest)))
  }

  ghost predicate Shape<Key>(o: Oracle<Key>, v: Value) {
    match v
    case Str(t) => StringToken(t) && o.decode(t).Some?
    case Num(t) => NumberShape(t) && o.number(t)
    case Lit(t) => t == TRUE || t == FALSE || t == NULL
    case EmptyArr(w) => Spaces(w)
    case Arr(items) => items.Item? && ItemsShape(o, items)
    case EmptyObj(w) => Spaces(w)
    case Obj(members) => members.Member? && MembersShape(o, members)
  }

  ghost predicate ItemsShape<Key>(o: Oracle<Key>, items: Items) {
    match items
    case NoItems => true
    case Item(before, value, after, rest) =>
      Spaces(before) && Shape(o, value) && Spaces(after) && ItemsShape(o, rest)
  }

  ghost predicate MembersShape<Key>(o: Oracle<Key>, members: Members) {
    match members
    case NoMembers => true
    case Member(before, name, beforeColon, beforeValue, value, after, rest) =>
      && Spaces(before) && StringToken(name) && o.decode(name).Some?
      && Spaces(beforeColon) && Spaces(beforeValue) && Shape(o, value) && Spaces(after)
      && MembersShape(o, rest)
  }

  /** The decoded member names of one object, in order; nested objects do not contribute. */
  ghost function Names<Key>(o: Oracle<Key>, members: Members): seq<Option<Key>> {
    match members
    case NoMembers => []
    case Member(_, name, _, _, _, _, rest) => [o.decode(name)] + Names(o, rest)
  }

  ghost predicate Distinct<T>(s: seq<T>) { forall i, j :: 0 <= i < j < |s| ==> s[i] != s[j] }

  /** Every object at every level has pairwise distinct decoded names. */
  ghost predicate Unique<Key>(o: Oracle<Key>, v: Value) {
    match v
    case Arr(items) => ItemsUnique(o, items)
    case Obj(members) => Distinct(Names(o, members)) && MembersUnique(o, members)
    case _ => true
  }

  ghost predicate ItemsUnique<Key>(o: Oracle<Key>, items: Items) {
    match items
    case NoItems => true
    case Item(_, value, _, rest) => Unique(o, value) && ItemsUnique(o, rest)
  }

  ghost predicate MembersUnique<Key>(o: Oracle<Key>, members: Members) {
    match members
    case NoMembers => true
    case Member(_, _, _, _, value, _, rest) => Unique(o, value) && MembersUnique(o, rest)
  }

  function Max(a: nat, b: nat): nat { if a < b then b else a }

  /** How many levels of values a value holds below itself. */
  function Height(v: Value): nat {
    match v
    case Arr(items) => 1 + ItemsHeight(items)
    case Obj(members) => 1 + MembersHeight(members)
    case _ => 0
  }

  function ItemsHeight(items: Items): nat {
    match items
    case NoItems => 0
    case Item(_, value, _, rest) => Max(Height(value), ItemsHeight(rest))
  }

  function MembersHeight(members: Members): nat {
    match members
    case NoMembers => 0
    case Member(_, _, _, _, value, _, rest) => Max(Height(value), MembersHeight(rest))
  }

  const MAX_DEPTH: nat := 32

  /** `text` is a JSON document with an object at its root, values no deeper than the limit and no
      object that repeats a name. */
  ghost predicate IsDocument<Key>(o: Oracle<Key>, text: Bytes) {
    exists before: Bytes, root: Value, after: Bytes :: DocumentParse(o, text, before, root, after)
  }

  ghost predicate DocumentParse<Key>(o: Oracle<Key>, text: Bytes, before: Bytes, root: Value, after: Bytes) {
    && DocumentShape(o, text, before, root, after)
    && Unique(o, root)
    && Height(root) <= MAX_DEPTH
  }

  /** The same without the limits on names and depth: RFC 8259 with an object at the root. */
  ghost predicate DocumentShape<Key>(o: Oracle<Key>, text: Bytes, before: Bytes, root: Value, after: Bytes) {
    && text == before + (Text(root) + after)
    && Spaces(before) && Spaces(after)
    && (root.EmptyObj? || root.Obj?) && Shape(o, root)
  }
}
