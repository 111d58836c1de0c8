/** The byte buffer between a recv and a send (buffer.c). */
module Buffers {
  import opened Bytes

  class Buffer {
    var data: array<byte>
    /** Positions in data, in place of pointers into it. */
    var limit: nat
    var read: nat
    var write: nat

    ghost predicate Valid()
      reads this
    {
      read <= write <= limit <= data.Length
    }

    /** The octets waiting to be read. */
    ghost function Contents(): seq<byte>
      requires read <= write <= data.Length
      reads this, data
    {
      data[read..write]
    }

    /** buffer_init */
    constructor (n: nat, memory: array<byte>)
      requires n <= memory.Length
      ensures Valid() && data == memory && limit == n
      ensures Contents() == [] && read == 0
    {
      data := memory;
      limit := n;
      read := 0;
      write := 0;
    }

    method Init(n: nat, memory: array<byte>)
      requires n <= memory.Length
      modifies this
      ensures Valid() && data == memory && limit == n
      ensures Contents() == [] && read == 0
    {
      data := memory;
      limit := n;
      Reset();
    }

    method Reset()
      requires limit <= data.Length
      modifies `read, `write
      ensures Valid()
      ensures Contents() == [] && read == write == 0
    {
      read := 0;
      write := 0;
    }

    predicate CanWrite()
      reads this
    {
      limit - write > 0
    }

    predicate CanRead()
      reads this
    {
      write - read > 0
    }

    /** How much there is room for behind the octets held; what buffer_write_ptr tells. */
    function Room(): int
      reads this
    {
      limit - write
    }

    /** The octets that someone has stored behind the write position become part of the contents. */
    method WriteAdv(bytes: int)
      requires Valid() && bytes <= Room()
      modifies `write
      ensures Valid()
      ensures bytes < 0 ==> unchanged(this)
      ensures bytes >= 0 ==>
                && write == old(write) + bytes
                && Contents() == old(Contents()) + data[old(write)..write]
    {
      if bytes > -1 {
        write := write + bytes;
      }
    }

    /** The octets before the new read position are gone; a buffer drained starts over. */
    method ReadAdv(bytes: int)
      requires Valid() && bytes <= write - read
      modifies this, data
      ensures Valid() && data == old(data) && limit == old(limit)
      ensures data[..] == old(data[..])
      ensures bytes < 0 ==> Contents() == old(Contents()) && read == old(read)
      ensures bytes >= 0 ==>
                && Contents() == old(Contents())[bytes..]
                && read == (if bytes == old(write - read) then 0 else old(read) + bytes)
    {
      if bytes > -1 {
        read := read + bytes;
        if read == write {
          Compact();
        }
      }
    }

    /** b->read += n, as callers also do it: nothing starts over. */
    method Skip(n: nat)
      requires Valid() && n <= write - read
      modifies `read
      ensures Valid() && read == old(read) + n
      ensures Contents() == old(Contents())[n..]
    {
      read := read + n;
    }

    /** b->write = ptr, the octets from there on not counting after all. */
    method Rewind(to: nat)
      requires Valid() && read <= to <= write
      modifies `write
      ensures Valid() && write == to
      ensures Contents() == old(Contents())[..to - read]
    {
      assert data[read..to] == data[read..write][..to - read];
      write := to;
    }

    method Read() returns (ret: byte)
      requires Valid()
      modifies this, data
      ensures Valid() && data == old(data) && limit == old(limit)
      ensures read == if old(Contents()) == [] then old(read) else if |old(Contents())| == 1 then 0 else old(read) + 1
      ensures old(Contents()) == [] ==> ret == NUL && Contents() == []
      ensures old(Contents()) != [] ==>
                && ret == old(Contents())[0]
                && Contents() == old(Contents())[1..]
    {
      if CanRead() {
        ret := data[read];
        assert data[read..write][..1] == [ret];
        ReadAdv(1);
      } else {
        ret := NUL;
      }
    }

    method Write(c: byte)
      requires Valid()
      modifies `write, data
      ensures Valid()
      ensures Contents() == old(Contents()) + if old(Room()) > 0 then [c] else []
    {
      if CanWrite() {
        data[write] := c;
        assert data[read..write] == old(data[read..write]);
        WriteAdv(1);
        assert data[old(write)..write] == [c];
      }
    }

    /** memmove to the front of the same memory, which may overlap. */
    method MoveToFront(n: nat)
      requires read + n <= data.Length
      modifies data
      ensures data[..n] == old(data[read..read + n]) && data[n..] == old(data[n..])
    {
      forall i | 0 <= i < n {
        data[i] := data[read + i];
      }
    }

    method Compact()
      requires Valid()
      modifies `read, `write, data
      ensures Valid()
      ensures Contents() == old(Contents()) && read == 0
      ensures old(read == 0 || Contents() == []) ==> data[..] == old(data[..])
    {
      if read == 0 {
      } else if read == write {
        read := 0;
        write := 0;
      } else {
        var n := write - read;
        ghost var before := data[read..write];
        MoveToFront(n);
        read := 0;
        write := n;
        assert data[read..write] == before;
      }
    }

    /** n = recv(fd, buffer_write_ptr(...)); buffer_write_adv(n), the recv having brought these octets. */
    method Fill(bytes: seq<byte>)
      requires Valid() && |bytes| <= Room()
      modifies `write, data
      ensures Valid() && write == old(write) + |bytes|
      ensures Contents() == old(Contents()) + bytes && data[old(write)..write] == bytes
    {
      forall i | 0 <= i < |bytes| {
        data[write + i] := bytes[i];
      }
      assert data[read..write] == old(data[read..write]);
      WriteAdv(|bytes|);
      assert data[old(write)..write] == bytes;
    }
  }

  // ----- Any sequence of operations -----

  datatype Op = WriteByte(c: byte) | ReadByte | FillWith(bytes: seq<byte>) | Advance(n: int) | DoCompact

  /** A buffer as a queue: the octets waiting, and where in the memory they are. */
  datatype Queue = Queue(contents: seq<byte>, read: nat, limit: nat) {
    function Room(): int {
      limit - (read + |contents|)
    }
  }

  /** What an operation puts in: octets for which there is room behind those waiting. */
  function WentIn(q: Queue, op: Op): seq<byte> {
    match op
    case WriteByte(c) => if q.Room() > 0 then [c] else []
    case FillWith(bytes) => if |bytes| <= q.Room() then bytes else []
    case _ => []
  }

  /** What an operation takes out: the first octets waiting. */
  function CameOut(q: Queue, op: Op): (r: seq<byte>)
    ensures r <= q.contents
  {
    match op
    case ReadByte => if q.contents == [] then [] else q.contents[..1]
    case Advance(n) => if 0 <= n <= |q.contents| then q.contents[..n] else []
    case _ => []
  }

  /** Where the first octet waiting is afterwards: a queue that is drained starts over, and so does one compacted. */
  function ReadAfter(q: Queue, op: Op): nat {
    match op
    case ReadByte => if |q.contents| == 1 then 0 else if q.contents == [] then q.read else q.read + 1
    case Advance(n) =>
      if !(0 <= n <= |q.contents|) then q.read else if n == |q.contents| then 0 else q.read + n
    case DoCompact => 0
    case _ => q.read
  }

  function Next(q: Queue, op: Op): Queue {
    Queue(q.contents[|CameOut(q, op)|..] + WentIn(q, op), ReadAfter(q, op), q.limit)
  }

  /** A queue after some operations, with all that came out and all that went in. */
  datatype Transcript = Transcript(queue: Queue, came: seq<byte>, went: seq<byte>)

  function Operated(q: Queue, ops: seq<Op>): Transcript {
    if ops == [] then Transcript(q, [], [])
    else
      var before := Operated(q, Front(ops));
      var now := before.queue;
      Transcript(Next(now, Last(ops)), before.came + CameOut(now, Last(ops)), before.went + WentIn(now, Last(ops)))
  }

  lemma Splice(start: seq<byte>, went: seq<byte>, came: seq<byte>, before: seq<byte>,
               x: seq<byte>, y: seq<byte>, after: seq<byte>)
    requires start + went == came + before && before + x == y + after
    ensures start + (went + x) == (came + y) + after
  {
    Assoc(start, went, x);
    Assoc(came, before, x);
    Assoc(came, y, after);
  }

  lemma NextConserves(q: Queue, op: Op)
    ensures q.contents + WentIn(q, op) == CameOut(q, op) + Next(q, op).contents
    ensures q.Room() >= 0 ==> Next(q, op).Room() >= 0
  {
    var came := CameOut(q, op);
    assert q.contents == came + q.contents[|came|..];
    Assoc(came, q.contents[|came|..], WentIn(q, op));
  }

  /**
   * First in, first out: after any operations at all, what came out and what is still inside
   * are, in order, what was inside and what went in; and the queue never outgrows its memory.
   */
  lemma {:induction false} FirstInFirstOut(q: Queue, ops: seq<Op>)
    requires q.Room() >= 0
    ensures var r := Operated(q, ops);
            && q.contents + r.went == r.came + r.queue.contents
            && r.queue.Room() >= 0
  {
    if ops == [] {
      EmptyConcat(q.contents);
    } else {
      FirstInFirstOut(q, Front(ops));
      var before, op := Operated(q, Front(ops)), Last(ops);
      var now := before.queue;
      NextConserves(now, op);
      Splice(q.contents, before.went, before.came, now.contents, WentIn(now, op), CameOut(now, op),
             Next(now, op).contents);
    }
  }

  ghost function AsQueue(b: Buffer): Queue
    requires b.Valid()
    reads b, b.data
  {
    Queue(b.Contents(), b.read, b.limit)
  }

  /** buffer_write, and what has gone in. */
  method PutOne(b: Buffer, c: byte) returns (went: seq<byte>)
    requires b.Valid()
    modifies b, b.data
    ensures b.Valid() && b.data == old(b.data)
    ensures AsQueue(b) == Next(old(AsQueue(b)), WriteByte(c)) && went == WentIn(old(AsQueue(b)), WriteByte(c))
  {
    went := if b.CanWrite() then [c] else [];
    b.Write(c);
  }

  /** buffer_read, and what has come out. */
  method TakeOne(b: Buffer) returns (came: seq<byte>)
    requires b.Valid()
    modifies b, b.data
    ensures b.Valid() && b.data == old(b.data)
    ensures AsQueue(b) == Next(old(AsQueue(b)), ReadByte) && came == CameOut(old(AsQueue(b)), ReadByte)
  {
    came := [];
    if b.CanRead() {
      came := b.data[b.read..b.read + 1];
      assert came == b.Contents()[..1];
    }
    var c := b.Read();
    EmptyConcat(b.Contents());
  }

  /** Octets stored behind those waiting, if they fit. */
  method PutMany(b: Buffer, bytes: seq<byte>) returns (went: seq<byte>)
    requires b.Valid()
    modifies b, b.data
    ensures b.Valid() && b.data == old(b.data)
    ensures AsQueue(b) == Next(old(AsQueue(b)), FillWith(bytes)) && went == WentIn(old(AsQueue(b)), FillWith(bytes))
  {
    went := [];
    EmptyConcat(b.Contents());
    if |bytes| <= b.Room() {
      went := bytes;
      b.Fill(bytes);
    }
  }

  /** buffer_read_adv, if there are as many octets, and what is gone by it. */
  method TakeMany(b: Buffer, n: int) returns (came: seq<byte>)
    requires b.Valid()
    modifies b, b.data
    ensures b.Valid() && b.data == old(b.data)
    ensures AsQueue(b) == Next(old(AsQueue(b)), Advance(n)) && came == CameOut(old(AsQueue(b)), Advance(n))
  {
    came := [];
    if 0 <= n <= b.write - b.read {
      came := b.data[b.read..b.read + n];
      assert came == b.Contents()[..n];
      b.ReadAdv(n);
    }
    EmptyConcat(b.Contents());
  }

  /** One operation. Those the buffer's assertions would stop are skipped. */
  method Perform(b: Buffer, op: Op) returns (came: seq<byte>, went: seq<byte>)
    requires b.Valid()
    modifies b, b.data
    ensures b.Valid() && b.data == old(b.data)
    ensures AsQueue(b) == Next(old(AsQueue(b)), op)
    ensures came == CameOut(old(AsQueue(b)), op) && went == WentIn(old(AsQueue(b)), op)
  {
    came, went := [], [];
    match op {
      case WriteByte(c) => went := PutOne(b, c);
      case ReadByte => came := TakeOne(b);
      case FillWith(bytes) => went := PutMany(b, bytes);
      case Advance(n) => came := TakeMany(b, n);
      case DoCompact =>
        EmptyConcat(b.Contents());
        b.Compact();
    }
  }

  /** Any operations, one after another, do to the buffer what they do to the queue. */
  method Operate(b: Buffer, ops: seq<Op>) returns (came: seq<byte>, went: seq<byte>)
    requires b.Valid()
    modifies b, b.data
    ensures b.Valid() && b.data == old(b.data)
    ensures Transcript(AsQueue(b), came, went) == Operated(old(AsQueue(b)), ops)
  {
    came, went := [], [];
    ghost var start := AsQueue(b);
    for i := 0 to |ops|
      invariant b.Valid() && b.data == old(b.data)
      invariant Transcript(AsQueue(b), came, went) == Operated(start, ops[..i])
    {
      assert Front(ops[..i + 1]) == ops[..i];
      var out, into := Perform(b, ops[i]);
      came, went := came + out, went + into;
    }
    assert ops[..|ops|] == ops;
  }
}
