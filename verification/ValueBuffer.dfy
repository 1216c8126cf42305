/** The locked FIFO of source/utils/buffer.h.  Every method is one critical section. */
module ValueBuffer {
  import opened Wrappers

  class ValueBuffer<T> {
    var buf: seq<T>

    constructor ()
      ensures buf == []
    {
      buf := [];
    }

    method PopFront() returns (r: Option<T>)
      modifies this
      ensures old(buf) == [] ==> r == None && buf == []
      ensures old(buf) != [] ==> r.Some? && old(buf) == [r.value] + buf
    {
      if |buf| == 0 {
        return None;
      }
      r := Some(buf[0]);
      buf := buf[1..];
    }

    method PushBack(value: T)
      modifies this
      ensures buf == old(buf) + [value]
    {
      buf := buf + [value];
    }

    method Empty() returns (r: bool)
      ensures r <==> buf == []
    {
      r := |buf| == 0;
    }

    method Size() returns (n: nat)
      ensures n == |buf|
    {
      n := |buf|;
    }

    method Clear()
      modifies this
      ensures buf == []
    {
      buf := [];
    }
  }
}
