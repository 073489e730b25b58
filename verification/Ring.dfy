/** The telemetry ring: a bounded queue for one producer and one consumer, alone and under interleaving. */
module Ring {
  import opened Bytes

  const DEPTH: nat := 8
  const SLOTS: nat := 9

  function Next(idx: nat): nat {
    if idx + 1 == SLOTS then 0 else idx + 1
  }

  function CountOf(head: nat, tail: nat): int {
    (head - tail + SLOTS) % SLOTS
  }

  /** The records from tail up to, not including, head, oldest first. */
  function Queued<T>(buf: seq<T>, head: nat, tail: nat): seq<T>
    requires |buf| == SLOTS && head < SLOTS && tail < SLOTS
  {
    if tail <= head then buf[tail..head] else buf[tail..] + buf[..head]
  }

  class TelemRing<T(0)> {
    const buf: array<T>
    var head: nat
    var tail: nat
    var drops: u32

    ghost predicate Valid()
      reads this
    {
      buf.Length == SLOTS && head < SLOTS && tail < SLOTS
    }

    ghost function Contents(): seq<T>
      requires Valid()
      reads this, buf
    {
      Queued(buf[..], head, tail)
    }

    constructor ()
      ensures Valid() && Contents() == [] && drops == 0 && fresh(buf)
    {
      buf := new T[SLOTS];
      head, tail, drops := 0, 0, 0;
    }

    /** Enqueues unless eight records are queued already; then the record is dropped and counted. */
    method Push(rec: T) returns (ok: bool)
      requires Valid()
      modifies this, buf
      ensures Valid() && ok == (|old(Contents())| < DEPTH)
      ensures Contents() == if ok then old(Contents()) + [rec] else old(Contents())
      ensures drops == if ok then old(drops) else Add32(old(drops), 1)
    {
      var h := head;
      if Next(h) == tail {
        drops := Add32(drops, 1);
        return false;
      }
      buf[h] := rec;
      head := Next(h);
      return true;
    }

    /** Dequeues the oldest record, if there is one. */
    method Pop() returns (ok: bool, rec: T)
      requires Valid()
      modifies this
      ensures Valid() && drops == old(drops) && ok == (old(Contents()) != [])
      ensures ok ==> rec == old(Contents())[0] && Contents() == old(Contents())[1..]
      ensures !ok ==> Contents() == old(Contents())
    {
      var t := tail;
      if t == head {
        rec := buf[0];
        return false, rec;
      }
      rec := buf[t];
      tail := Next(t);
      return true, rec;
    }

    method Count() returns (n: int)
      requires Valid()
      ensures n == |Contents()|
    {
      return CountOf(head, tail);
    }
  }
}
