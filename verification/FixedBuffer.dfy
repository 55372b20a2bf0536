/** `FixedBuffer<SIZE>` of base/logStream.h. */
module FixedBufferModule {

  const LARGE_BUFFER := 4096 * 1024

  /** What `append` makes of a buffer of capacity `size` holding `s`: all of `line`, or nothing of it. */
  function Put(size: nat, s: string, line: string): (r: string)
    ensures |s| + |line| < size ==> r == s + line && |r| < size
    ensures |s| + |line| >= size ==> r == s
  {
    if size - |s| > |line| then s + line else s
  }

  class FixedBuffer {
    const data: array<char>
    var cur: nat

    ghost predicate Valid()
      reads this
    {
      cur <= data.Length
    }

    function Contents(): string
      reads this, data
      requires Valid()
    {
      data[..cur]
    }

    constructor (size: nat)
      ensures Valid() && Contents() == "" && data.Length == size && fresh(data)
    {
      data := new char[size](_ => '\0');
      cur := 0;
    }

    function Avail(): nat
      reads this
      requires Valid()
    {
      data.Length - cur
    }

    method Append(line: string)
      requires Valid()
      modifies this, data
      ensures Valid() && Contents() == Put(data.Length, old(Contents()), line)
    {
      if Avail() > |line| {
        forall i | 0 <= i < |line| { data[cur + i] := line[i]; }
        cur := cur + |line|;
      }
    }

    method Reset()
      requires Valid()
      modifies this, data
      ensures Valid() && Contents() == ""
    {
      cur := 0;
      forall i | 0 <= i < data.Length { data[i] := '\0'; }
    }
  }
}
