/** The scanner of the onboarding adapter: a struct that walks a byte buffer with one mutable index. */
module JsonDuplicateScanner {
  import opened Common
  import opened JsonGrammar
  import JsonScan

  datatype ScanError = MalformedJson | DuplicateField

  /** A scan step succeeded and left the index where the specification says, or failed with its error. */
  ghost predicate Matches(error: Option<ScanError>, index: nat, expected: JsonScan.Outcome) {
    match expected
    case Done(next) => error == None && index == next
    case Malformed => error == Some(MalformedJson)
    case Duplicate => error == Some(DuplicateField)
  }

  // The scanner's own tests on bytes, which are those of the grammar.

  predicate Whitespace(b: Byte)
    ensures Whitespace(b) <==> IsSpace(b)
  {
    b == 9 || b == 10 || b == 13 || b == 32
  }

  predicate EndsNumber(b: Byte)
    ensures EndsNumber(b) <==> IsDelimiter(b)
  {
    b == 9 || b == 10 || b == 13 || b == 32 || b == 44 || b == 93 || b == 125
  }

  predicate HexDigit(b: Byte)
    ensures HexDigit(b) <==> IsHex(b)
  {
    48 <= b <= 57 || 65 <= b <= 70 || 97 <= b <= 102
  }

  predicate EscapedByte(b: Byte)
    ensures EscapedByte(b) <==> IsSimpleEscape(b)
  {
    b == 34 || b == 47 || b == 92 || b == 98 || b == 102 || b == 110 || b == 114 || b == 116
  }

  class JSONDuplicateScanner<Key(==)> {
    const bytes: Bytes
    const oracle: Oracle<Key>
    var index: nat

    constructor (data: Bytes, oracle: Oracle<Key>)
      ensures bytes == data && this.oracle == oracle && index == 0
    {
      bytes := data;
      this.oracle := oracle;
      index := 0;
    }

    /** Accepts exactly the documents of the grammar, and never reads outside the buffer. */
    method ScanDocument() returns (error: Option<ScanError>)
      requires index == 0
      modifies this
      ensures error == None <==> IsDocument(oracle, bytes)
      ensures error == Some(DuplicateField) <==> JsonScan.Scan(oracle, bytes) == JsonScan.Duplicate
    {
      JsonScan.ScanIffDocument(oracle, bytes);
      SkipWhitespace();
      if !(index < |bytes| && bytes[index] == 123) { return Some(MalformedJson); }
      error := ScanValue(0);
      if error.Some? { return; }
      SkipWhitespace();
      if index != |bytes| { return Some(MalformedJson); }
    }

    /** The recursion never passes depth 33, and a value is never empty. */
    method ScanValue(depth: nat) returns (error: Option<ScanError>)
      requires index <= |bytes| && depth <= MAX_DEPTH + 1
      modifies this
      ensures old(index) <= index <= |bytes| && (error == None ==> old(index) < index)
      ensures Matches(error, index, JsonScan.ScanValue(oracle, bytes, old(index), depth))
      decreases |bytes| - index, 1
    {
      if depth > 32 { return Some(MalformedJson); }
      SkipWhitespace();
      if index == |bytes| { return Some(MalformedJson); }
      var byte := bytes[index];
      if byte == 34 {
        var key;
        key, error := ScanString();
      } else if byte == 91 {
        error := ScanArray(depth);
      } else if byte == 123 {
        error := ScanObject(depth);
      } else if byte == 116 {
        error := ScanLiteral([116, 114, 117, 101]);
      } else if byte == 102 {
        error := ScanLiteral([102, 97, 108, 115, 101]);
      } else if byte == 110 {
        error := ScanLiteral([110, 117, 108, 108]);
      } else if byte == 45 || 48 <= byte <= 57 {
        error := ScanNumber();
      } else {
        error := Some(MalformedJson);
      }
    }

    method ScanObject(depth: nat) returns (error: Option<ScanError>)
      requires index < |bytes| && depth <= MAX_DEPTH && bytes[index] == 123
      modifies this
      ensures old(index) <= index <= |bytes|
      ensures Matches(error, index, JsonScan.ScanObject(oracle, bytes, old(index), depth))
      decreases |bytes| - index, 0
    {
      hide JsonScan.ScanMembers, JsonScan.SkipSpace, Spaces;
      ghost var expected := JsonScan.ScanObject(oracle, bytes, index, depth);
      error := Consume(123);
      SkipWhitespace();
      var keys: set<Key> := {};
      var closed := ConsumeIf(125);
      while !closed
        invariant old(index) < index <= |bytes|
        invariant error == None
        invariant expected == if closed then JsonScan.Done(index)
                              else JsonScan.ScanMembers(oracle, bytes, index, depth, keys)
        decreases if closed then 0 else 1 + |bytes| - index
      {
        closed, keys, error := ScanMember(depth, keys);
        if error.Some? { return; }
      }
    }

    /** One turn of the loop over members: the member, and the brace or comma after it. */
    method ScanMember(depth: nat, seen: set<Key>) returns (closed: bool, keys: set<Key>, error: Option<ScanError>)
      requires index <= |bytes| && depth <= MAX_DEPTH
      modifies this
      ensures old(index) <= index <= |bytes| && (error == None ==> old(index) < index)
      ensures var expected := JsonScan.ScanMembers(oracle, bytes, old(index), depth, seen);
              if error == None && !closed then expected == JsonScan.ScanMembers(oracle, bytes, index, depth, keys)
              else Matches(error, index, expected)
      decreases |bytes| - index, 2
    {
      hide JsonScan.ScanValue, JsonScan.ScanString, JsonScan.SkipSpace, Spaces;
      ghost var expected := JsonScan.ScanMembers(oracle, bytes, index, depth, seen);
      closed, keys := false, seen;
      SkipWhitespace();
      if !(index < |bytes| && bytes[index] == 34) {
        JsonScan.NoQuote(oracle, bytes, index);
        return false, keys, Some(MalformedJson);
      }
      var key;
      key, error := ScanString();
      if error.Some? { return; }
      if key.value in keys { return false, keys, Some(DuplicateField); }
      keys := keys + {key.value};
      SkipWhitespace();
      error := Consume(58);
      if error.Some? { return; }
      assert expected == JsonScan.ScanMemberValue(oracle, bytes, index, depth, keys);
      error := ScanValue(depth + 1);
      if error.Some? { return; }
      SkipWhitespace();
      closed := ConsumeIf(125);
      if !closed { error := Consume(44); }
    }

    method ScanArray(depth: nat) returns (error: Option<ScanError>)
      requires index < |bytes| && depth <= MAX_DEPTH && bytes[index] == 91
      modifies this
      ensures old(index) <= index <= |bytes|
      ensures Matches(error, index, JsonScan.ScanArray(oracle, bytes, old(index), depth))
      decreases |bytes| - index, 0
    {
      hide JsonScan.ScanValue, JsonScan.SkipSpace, Spaces, IsSpace;
      ghost var expected := JsonScan.ScanArray(oracle, bytes, index, depth);
      error := Consume(91);
      SkipWhitespace();
      var closed := ConsumeIf(93);
      while !closed
        invariant old(index) < index <= |bytes|
        invariant error == None
        invariant expected == if closed then JsonScan.Done(index)
                              else JsonScan.ScanItems(oracle, bytes, index, depth)
        decreases if closed then 0 else 1 + |bytes| - index
      {
        error := ScanValue(depth + 1);
        if error.Some? { return; }
        SkipWhitespace();
        closed := ConsumeIf(93);
        if !closed {
          error := Consume(44);
          if error.Some? { return; }
        }
      }
    }

    method ScanString() returns (key: Option<Key>, error: Option<ScanError>)
      requires index <= |bytes|
      modifies this
      ensures old(index) <= index <= |bytes|
      ensures match JsonScan.ScanString(oracle, bytes, old(index))
              case StringDone(next, decoded) => error == None && index == next && key == Some(decoded)
              case StringBad => error == Some(MalformedJson)
    {
      hide IsHex, IsSimpleEscape, HexDigit, EscapedByte;
      key := None;
      var start := index;
      error := Consume(34);
      if error.Some? { return; }
      ghost var end := JsonScan.StringEnd(bytes, index);
      while index < |bytes|
        invariant old(index) <= start < index <= |bytes| && JsonScan.StringEnd(bytes, index) == end && error == None
      {
        ghost var at := index;
        var byte := bytes[index];
        index := index + 1;
        if byte == 34 {
          key := oracle.decode(bytes[start..index]);
          return key, if key.Some? then None else Some(MalformedJson);
        }
        if byte == 92 {
          if index == |bytes| { return None, Some(MalformedJson); }
          var escaped := bytes[index];
          index := index + 1;
          if escaped == 117 {
            ghost var first := index;
            for digits := 0 to 4
              invariant index == first + digits <= |bytes|
              invariant forall k :: first <= k < index ==> IsHex(bytes[k])
            {
              if !(index < |bytes| && HexDigit(bytes[index])) { return None, Some(MalformedJson); }
              index := index + 1;
            }
            assert IsHex(bytes[at + 2]) && IsHex(bytes[at + 3]) && IsHex(bytes[at + 4]) && IsHex(bytes[at + 5]);
          } else if !EscapedByte(escaped) {
            return None, Some(MalformedJson);
          }
        } else if byte < 0x20 {
          return None, Some(MalformedJson);
        }
      }
      error := Some(MalformedJson);
    }

    method ScanLiteral(literal: Bytes) returns (error: Option<ScanError>)
      requires index <= |bytes|
      modifies this
      ensures old(index) <= index <= |bytes|
      ensures Matches(error, index, JsonScan.ScanLiteral(bytes, old(index), literal))
    {
      if index + |literal| > |bytes| || bytes[index..index + |literal|] != literal { return Some(MalformedJson); }
      index := index + |literal|;
      error := None;
    }

    method ScanNumber() returns (error: Option<ScanError>)
      requires index <= |bytes|
      modifies this
      ensures old(index) <= index <= |bytes|
      ensures Matches(error, index, JsonScan.ScanNumber(oracle, bytes, old(index)))
    {
      var start := index;
      while index < |bytes| && !EndsNumber(bytes[index])
        invariant start <= index <= |bytes|
        invariant JsonScan.NumberEnd(bytes, index) == JsonScan.NumberEnd(bytes, start)
      {
        index := index + 1;
      }
      if start == index || !oracle.number(bytes[start..index]) { return Some(MalformedJson); }
      error := None;
    }

    method SkipWhitespace()
      requires index <= |bytes|
      modifies this
      ensures index == JsonScan.SkipSpace(bytes, old(index))
    {
      while index < |bytes| && Whitespace(bytes[index])
        invariant index <= |bytes|
        invariant JsonScan.SkipSpace(bytes, index) == JsonScan.SkipSpace(bytes, old(index))
      {
        index := index + 1;
      }
    }

    method Consume(expected: Byte) returns (error: Option<ScanError>)
      requires index <= |bytes|
      modifies this
      ensures old(index) <= index <= |bytes|
      ensures if JsonScan.ByteAt(bytes, old(index), expected) then error == None && index == old(index) + 1
              else error == Some(MalformedJson) && index == old(index)
    {
      var consumed := ConsumeIf(expected);
      error := if consumed then None else Some(MalformedJson);
    }

    method ConsumeIf(expected: Byte) returns (consumed: bool)
      requires index <= |bytes|
      modifies this
      ensures old(index) <= index <= |bytes|
      ensures consumed == JsonScan.ByteAt(bytes, old(index), expected)
      ensures index == old(index) + if consumed then 1 else 0
    {
      if !(index < |bytes| && bytes[index] == expected) { return false; }
      index := index + 1;
      return true;
    }
  }
}
