/** The bounded read of the legacy migration helper's standard input. */
module StandardInput {
  import opened Common

  const MAX_INPUT: nat := 64 * 1024
  const BUFFER: nat := 4096

  /** How one read goes: at most so many bytes, an interruption, or an error. After the plan, reads fill the buffer. */
  datatype Read = UpTo(count: nat) | Interrupted | Broken

  datatype Input = Data(bytes: Bytes) | Empty | TooLong | ReadFailed

  /** What the input comes to, without a word about how it arrives. */
  function Verdict(stream: Bytes): Input {
    if stream == [] then Empty else if |stream| > MAX_INPUT then TooLong else Data(stream)
  }

  function Min(a: nat, b: nat): nat { if a < b then a else b }

  /** The bytes one read returns: none exactly at the end of the stream, else one at least. */
  function Returned(rest: Bytes, wanted: nat, capacity: nat): (count: nat)
    requires capacity > 0
    ensures count <= |rest| && count <= capacity && (count == 0 <==> rest == [])
  {
    Min(|rest|, Min(capacity, if wanted == 0 then 1 else wanted))
  }

  /** However the stream is cut into reads and interrupted, the result is the same; an error on the way can only turn it
      into a failure. */
  method ReadStandardInput(stream: Bytes, plan: seq<Read>) returns (input: Input)
    ensures input == Verdict(stream) || (input == ReadFailed && Broken in plan)
  {
    var result: Bytes := [];
    var rest, planned := stream, plan;
    while true
      invariant result + rest == stream && |result| <= MAX_INPUT && (Broken in planned ==> Broken in plan)
      decreases |rest|, |planned|
    {
      var capacity := Min(BUFFER, MAX_INPUT + 1 - |result|);
      var next := if planned == [] then UpTo(capacity) else planned[0];
      if planned != [] { planned := planned[1..]; }
      if next.Broken? { return ReadFailed; }
      if next.Interrupted? { continue; }
      var count := Returned(rest, next.count, capacity);
      if count == 0 { break; }
      assert result + rest[..count] + rest[count..] == result + rest;
      result, rest := result + rest[..count], rest[count..];
      if |result| > MAX_INPUT { return TooLong; }
    }
    if result == [] { return Empty; }
    return Data(result);
  }
}
