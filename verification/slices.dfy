/** Go slices on the heap.  A slice that is never appended to is just its backing array; one that is
    has a length and possibly spare room after it.  A nil slice is an array without elements, which holds
    no memory. */
module Slices {

  datatype Slice = Slice(backing: array<string>, len: nat)

  ghost predicate Wf(s: Slice) {
    s.len <= s.backing.Length
  }

  function Contents(s: Slice): seq<string>
    reads s.backing
  {
    if s.len <= s.backing.Length then s.backing[..s.len] else []
  }

  /** sliceutil.CloneStrings and cloneUpgrades: new memory, no spare room. */
  method Clone<T>(input: seq<T>) returns (out: array<T>)
    ensures fresh(out) && out[..] == input
  {
    out := new T[|input|](i requires 0 <= i < |input| => input[i]);
  }

  /** Go's append of one element: in place when there is room, otherwise in a new backing array
      with any amount of spare room. */
  method Append(s: Slice, x: string) returns (r: Slice)
    requires Wf(s)
    modifies s.backing
    ensures Wf(r) && r.len == s.len + 1 && Contents(r) == old(Contents(s)) + [x]
    ensures if s.len < s.backing.Length then r.backing == s.backing else fresh(r.backing)
    ensures Contents(s) == old(Contents(s))
    ensures s.len == s.backing.Length ==> unchanged(s.backing)
  {
    var was := Contents(s);
    if s.len < s.backing.Length {
      s.backing[s.len] := x;
      assert s.backing[..s.len] == was;
      r := Slice(s.backing, s.len + 1);
      assert s.backing[..s.len + 1] == was + [x];
    } else {
      var n := s.len;
      var capacity: int := *;
      if capacity <= n {
        capacity := n + 1;
      }
      var out := new string[capacity](i requires 0 <= i < capacity => if i < n then was[i] else x);
      r := Slice(out, n + 1);
      assert out[..n + 1] == was + [x];
    }
  }
}
