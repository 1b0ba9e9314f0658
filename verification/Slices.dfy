/** Go slices: a length over an array that other slices may share. Appending writes into
    the shared array when it has room. */
module Slices {

  datatype Slice<T> = Slice(arr: array<T>, len: nat) {
    ghost predicate Valid()
      reads arr
    {
      len <= arr.Length
    }

    ghost function Contents(): (s: seq<T>)
      requires Valid()
      reads arr
    {
      arr[..len]
    }
  }

  /** A nil slice. */
  method Nil<T(0)>() returns (s: Slice<T>)
    ensures s.Valid() && s.Contents() == [] && fresh(s.arr)
  {
    var arr := new T[0];
    s := Slice(arr, 0);
  }

  /** append(s, xs...): what s shows does not change, even though its array may. A new
      array has room to spare, how much is not promised. */
  method Append<T>(s: Slice<T>, xs: seq<T>) returns (t: Slice<T>)
    requires s.Valid()
    modifies s.arr
    ensures t.Valid() && t.Contents() == old(s.Contents()) + xs
    ensures s.Contents() == old(s.Contents())
    ensures t.arr == s.arr || fresh(t.arr)
  {
    var n := s.len + |xs|;
    if n <= s.arr.Length {
      for i := 0 to |xs|
        invariant s.arr[..s.len] == old(s.arr[..s.len])
        invariant s.arr[s.len..s.len + i] == xs[..i]
      {
        s.arr[s.len + i] := xs[i];
      }
      assert s.arr[..n] == s.arr[..s.len] + s.arr[s.len..s.len + |xs|];
      t := Slice(s.arr, n);
    } else {
      var all := s.arr[..s.len] + xs;
      var room :| n <= room;
      var arr := new T[room](i requires 0 <= i => if i < |all| then all[i] else all[0]);
      assert arr[..n] == all;
      t := Slice(arr, n);
    }
  }
}
