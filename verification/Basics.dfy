/** Types shared by every module of the model. */
module Basics {

  /** One octet of a file, C++ `unsigned char`. */
  type byte = x: int | 0 <= x < 256

  datatype Option<+T> = None | Some(value: T)

  /** Steady-clock ticks are nanoseconds. */
  const MINUTE: int := 60_000_000_000

  const TWO_52: int := 0x10_0000_0000_0000
  const TWO_64: int := 0x1_0000_0000_0000_0000

  lemma Assoc<T>(a: seq<T>, b: seq<T>, c: seq<T>)
    ensures (a + b) + c == a + (b + c)
  {}

  /** The total length of a sequence of strings. */
  function TotalLength(parts: seq<string>): nat {
    if parts == [] then 0 else |parts[0]| + TotalLength(parts[1..])
  }

  /** The parts one after the other. */
  function Concat<T>(parts: seq<seq<T>>): seq<T> {
    if parts == [] then [] else parts[0] + Concat(parts[1..])
  }

  lemma {:induction false} ConcatAppend<T>(parts: seq<seq<T>>, more: seq<seq<T>>)
    ensures Concat(parts + more) == Concat(parts) + Concat(more)
  {
    if parts == [] {
      assert parts + more == more;
    } else {
      assert (parts + more)[1..] == parts[1..] + more;
      ConcatAppend(parts[1..], more);
    }
  }

  lemma ConcatSnoc<T>(parts: seq<seq<T>>, last: seq<T>)
    ensures Concat(parts + [last]) == Concat(parts) + last
  {
    ConcatAppend(parts, [last]);
    assert Concat([last]) == last;
  }

  lemma {:induction false} TotalLengthAppend(parts: seq<string>, more: seq<string>)
    ensures TotalLength(parts + more) == TotalLength(parts) + TotalLength(more)
  {
    if parts == [] {
      assert parts + more == more;
    } else {
      assert (parts + more)[1..] == parts[1..] + more;
      TotalLengthAppend(parts[1..], more);
    }
  }

  function Sum(numbers: seq<int>): int {
    if numbers == [] then 0 else numbers[0] + Sum(numbers[1..])
  }
}
