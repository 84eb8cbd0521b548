/** The userspace splice: two bounded buffers pump two byte streams between
    descriptors that may deliver, accept, refuse or end at any time. */
module Splice {
  import opened Bytes

  /** What a read may meet: data (delivered as far as there is room), EAGAIN, or
      the end or an error. Behind the last event there is only the end. */
  datatype ReadEvent = Data(bytes: seq<Byte>) | NoData | End

  /** What a write may meet: room for n bytes, EAGAIN, or an error. */
  datatype WriteEvent = Room(n: nat) | NoRoom | Broken

  datatype Output = Wrote(bytes: seq<Byte>) | Shutdown

  /** One direction: the buffer between an input, of which `got` has been read so
      far, and an output, on which `log` has happened so far. */
  datatype Pipe = Pipe(
    cap: nat, buf: seq<Byte>,
    input: seq<ReadEvent>, got: seq<Byte>,
    output: seq<WriteEvent>, log: seq<Output>)

  function Written(log: seq<Output>): seq<Byte> {
    if log == [] then []
    else Written(log[..|log| - 1]) + (match log[|log| - 1] case Wrote(b) => b case Shutdown => [])
  }

  function Min(a: nat, b: nat): nat {
    if a < b then a else b
  }

  /** `readv` into the free part of the buffer, if there is any. */
  function ReadOnce(p: Pipe): (Pipe, int)
    requires |p.buf| <= p.cap
  {
    var room := p.cap - |p.buf|;
    if room == 0 then (p, 1)
    else if p.input == [] then (p, -1)
    else match p.input[0]
      case NoData => (p.(input := p.input[1..]), 0)
      case End => (p.(input := p.input[1..]), -1)
      case Data(bytes) =>
        var n := Min(|bytes|, room);
        if n == 0 then (p.(input := p.input[1..]), -1)
        else (p.(buf := p.buf + bytes[..n], got := p.got + bytes[..n],
                 input := (if n == |bytes| then [] else [Data(bytes[n..])]) + p.input[1..]), 1)
  }

  /** `writev` of the buffered bytes, if there are any; at the end of the input
      and of the buffer, the output is shut down. */
  function WriteOnce(p: Pipe, res: int): (Pipe, int) {
    if p.buf == [] then
      (if res < 0 then p.(log := p.log + [Shutdown]) else p, res)
    else if p.output == [] then (p, -1)
    else match p.output[0]
      case NoRoom => (p.(output := p.output[1..]), 0)
      case Broken => (p.(output := p.output[1..]), -1)
      case Room(room) =>
        var n := Min(room, |p.buf|);
        if n == 0 then (p.(output := p.output[1..]), -1)
        else (p.(buf := p.buf[n..], output := p.output[1..], log := p.log + [Wrote(p.buf[..n])]), 1)
  }

  /** One call of the pump. */
  function Pump(p: Pipe): (Pipe, int)
    requires |p.buf| <= p.cap
  {
    WriteOnce(ReadOnce(p).0, ReadOnce(p).1)
  }

  // ------------------------------------------------------------ stream fidelity

  /** What has been written, and then what is buffered, is what has been read, in
      order; the buffer keeps to its capacity. */
  predicate Faithful(p: Pipe) {
    Written(p.log) + p.buf == p.got && |p.buf| <= p.cap
  }

  lemma WrittenAppend(log: seq<Output>, o: Output)
    ensures Written(log + [o]) == Written(log) + (match o case Wrote(b) => b case Shutdown => [])
  {
    assert (log + [o])[..|log|] == log;
  }

  lemma ReadTakes(p: Pipe)
    requires |p.buf| <= p.cap
    ensures var q := ReadOnce(p).0;
            && |p.buf| <= |q.buf| <= p.cap && |p.got| <= |q.got|
            && q.buf == p.buf + q.buf[|p.buf|..] && q.got == p.got + q.buf[|p.buf|..]
            && q.cap == p.cap && q.output == p.output && q.log == p.log
  {}

  /** What a write does: nothing, a shutdown, or the front of the buffer. */
  lemma WriteGives(q: Pipe, res: int)
    ensures var r := WriteOnce(q, res).0;
            && r.cap == q.cap && r.got == q.got && r.input == q.input && |r.buf| <= |q.buf|
            && var gone := q.buf[..|q.buf| - |r.buf|];
               q.buf == gone + r.buf
               && r.log == q.log + (if gone != [] then [Wrote(gone)]
                                    else if q.buf == [] && res < 0 then [Shutdown] else [])
               && (gone != [] <==> WriteOnce(q, res).1 == 1 && q.buf != [])
  {}

  lemma ReadFaithful(p: Pipe)
    requires Faithful(p)
    ensures Faithful(ReadOnce(p).0)
  {
    hide ReadOnce, Written;
    ReadTakes(p);
    Associative(Written(p.log), p.buf, ReadOnce(p).0.buf[|p.buf|..]);
  }

  lemma WriteFaithful(q: Pipe, res: int)
    requires Faithful(q)
    ensures Faithful(WriteOnce(q, res).0)
  {
    hide WriteOnce, Written;
    WriteGives(q, res);
    var r := WriteOnce(q, res).0;
    var gone := q.buf[..|q.buf| - |r.buf|];
    if gone != [] {
      WrittenAppend(q.log, Wrote(gone));
      Associative(Written(q.log), gone, r.buf);
    } else {
      assert q.buf == r.buf;
      if r.log != q.log {
        WrittenAppend(q.log, Shutdown);
      }
    }
  }

  lemma PumpFaithful(p: Pipe)
    requires Faithful(p)
    ensures Faithful(Pump(p).0) && Pump(p).0.cap == p.cap
    ensures p.got <= Pump(p).0.got && p.log <= Pump(p).0.log
  {
    hide ReadOnce, WriteOnce, Written;
    var (q, res) := ReadOnce(p);
    ReadTakes(p);
    ReadFaithful(p);
    WriteGives(q, res);
    WriteFaithful(q, res);
  }

  // ---------------------------------------------------------- what results mean

  /** The read of this call meets the end of the input or an error. */
  predicate ReadEnds(p: Pipe) {
    |p.buf| < p.cap && (p.input == [] || p.input[0].End? || p.input[0] == Data([]))
  }

  /** The next write would meet EAGAIN. */
  predicate WriteBlocks(p: Pipe) {
    p.output != [] && p.output[0].NoRoom?
  }

  /** The next read, if there is room, would meet EAGAIN. */
  predicate ReadBlocks(p: Pipe) {
    |p.buf| < p.cap && p.input != [] && p.input[0].NoData?
  }

  lemma ReadResult(p: Pipe)
    requires |p.buf| <= p.cap
    ensures var (q, res) := ReadOnce(p);
            && (res == 1 || res == 0 || res == -1) && (res == 0 <==> ReadBlocks(p)) && (res == -1 <==> ReadEnds(p))
            && (res == 1 && p.cap > 0 ==> q.buf != [])
  {}

  lemma WriteResult(q: Pipe, res: int)
    ensures var out := WriteOnce(q, res).1;
            if q.buf == [] then out == res
            else
              && (out == 1 || out == 0 || out == -1) && (out == 0 <==> WriteBlocks(q))
              && (out == -1 <==> q.output == [] || q.output[0].Broken? || q.output[0] == Room(0))
  {}

  /** A write adds to what has been written exactly if it reports progress. */
  lemma WriteAdds(q: Pipe, res: int)
    ensures |Written(WriteOnce(q, res).0.log)| >= |Written(q.log)|
    ensures |Written(WriteOnce(q, res).0.log)| > |Written(q.log)| <==> q.buf != [] && WriteOnce(q, res).1 == 1
  {
    hide Written;
    WriteGives(q, res);
    var r := WriteOnce(q, res).0;
    var gone := q.buf[..|q.buf| - |r.buf|];
    if gone != [] {
      WrittenAppend(q.log, Wrote(gone));
    } else if r.log != q.log {
      WrittenAppend(q.log, Shutdown);
    }
  }

  /** With a buffer that can hold something, the result of a call says: 1, bytes
      were written; 0, nothing was written and the last thing tried met EAGAIN;
      -1, nothing was written and either the write failed or the input ended
      with nothing left to write. */
  lemma PumpResult(p: Pipe)
    requires Faithful(p) && p.cap > 0
    ensures var q, (r, res) := ReadOnce(p).0, Pump(p);
            && (res == 1 <==> |Written(r.log)| > |Written(p.log)|)
            && (res == 0 <==> if q.buf == [] then ReadBlocks(p) else WriteBlocks(q))
            && (res == -1 <==> if q.buf == [] then ReadEnds(p)
                               else q.output == [] || q.output[0].Broken? || q.output[0] == Room(0))
            && (res == 1 || res == 0 || res == -1)
  {
    hide ReadOnce, WriteOnce, Written, ReadBlocks;
    var (q, res) := ReadOnce(p);
    ReadTakes(p);
    ReadResult(p);
    WriteResult(q, res);
    WriteAdds(q, res);
  }

  /** The output is shut down exactly in the call that finds the input ended and
      the buffer empty: everything read has then been written. */
  lemma PumpShutsDown(p: Pipe)
    requires Faithful(p)
    ensures Pump(p).0.log == p.log + [Shutdown] <==> ReadEnds(p) && p.buf == []
    ensures ReadEnds(p) && p.buf == [] ==>
              Pump(p).1 == -1 && Written(Pump(p).0.log) == Pump(p).0.got && Pump(p).0.buf == []
    ensures Pump(p).0.log == p.log + [Shutdown]
            || Pump(p).0.log == p.log
            || exists b :: b != [] && Pump(p).0.log == p.log + [Wrote(b)]
  {
    var (q, res) := ReadOnce(p);
    ReadTakes(p);
    WriteGives(q, res);
    var gone := q.buf[..|q.buf| - |Pump(p).0.buf|];
    assert ReadEnds(p) ==> q.buf == p.buf;
    assert (p.log + [Shutdown])[|p.log|] == Shutdown;
    if gone != [] {
      assert Pump(p).0.log == p.log + [Wrote(gone)];
      assert Pump(p).0.log[|p.log|] == Wrote(gone);
    } else if Pump(p).0.log != q.log {
      WrittenAppend(q.log, Shutdown);
    }
  }

  // -------------------------------------------------------------- termination

  function InputSize(input: seq<ReadEvent>): nat {
    if input == [] then 0
    else 1 + (if input[0].Data? then |input[0].bytes| else 0) + InputSize(input[1..])
  }

  /** Work left in a direction whose last result was r. */
  function Work(p: Pipe, r: int): nat {
    if r < 0 then 0 else 1 + 2 * InputSize(p.input) + |p.buf| + |p.output|
  }

  lemma ReadWork(p: Pipe)
    requires |p.buf| <= p.cap
    ensures var (q, res) := ReadOnce(p);
            2 * InputSize(q.input) + |q.buf| <= 2 * InputSize(p.input) + |p.buf|
            && (q.input != p.input ==> 2 * InputSize(q.input) + |q.buf| < 2 * InputSize(p.input) + |p.buf|)
            && q.output == p.output && q.cap == p.cap && |q.buf| <= q.cap
  {
    if p.cap > |p.buf| && p.input != [] && p.input[0].Data? {
      var bytes, q := p.input[0].bytes, ReadOnce(p).0;
      var n := Min(|bytes|, p.cap - |p.buf|);
      if 0 < n < |bytes| {
        assert q.input[0] == Data(bytes[n..]) && q.input[1..] == p.input[1..];
      } else {
        assert q.input == p.input[1..];
      }
    }
  }

  /** Every call does work exactly if the buffer can hold something: without
      capacity a call reports progress, moves nothing, and would do so for ever. */
  lemma PumpWorks(p: Pipe, r: int)
    requires Faithful(p) && r >= 0
    ensures Work(Pump(p).0, Pump(p).1) < Work(p, r) <==> p.cap > 0
  {
    ReadWork(p);
    if p.cap == 0 {
      assert Pump(p) == (p, 1);
    }
  }

  // ------------------------------------------------------------------ the loop

  datatype Duplex = Duplex(f: Pipe, b: Pipe, resF: int, resB: int)

  datatype Yield = Again | WaitIo | Leave

  /** One pass over both directions; a direction that has ended is left alone. */
  function Round(d: Duplex): Duplex
    requires |d.f.buf| <= d.f.cap && |d.b.buf| <= d.b.cap
  {
    var f := if d.resF >= 0 then Pump(d.f) else (d.f, d.resF);
    var b := if d.resB >= 0 then Pump(d.b) else (d.b, d.resB);
    Duplex(f.0, b.0, f.1, b.1)
  }

  /** The 32-bit pattern of a result. */
  function Bits(r: int): bv32
    requires -1 <= r <= 1
  {
    if r < 0 then 0xFFFF_FFFF else r as bv32
  }

  function Decision(resF: int, resB: int): Yield
    requires -1 <= resF <= 1 && -1 <= resB <= 1
  {
    if resF > 0 || resB > 0 then Again
    else if Bits(resF) & Bits(resB) == 0 then WaitIo
    else Leave
  }

  /** The bit test leaves exactly when both directions have ended, and waits
      exactly when some direction is alive and none has made progress. */
  lemma DecisionMeans(resF: int, resB: int)
    requires -1 <= resF <= 1 && -1 <= resB <= 1
    ensures Decision(resF, resB).Leave? <==> resF == -1 && resB == -1
    ensures Decision(resF, resB).WaitIo? <==> resF <= 0 && resB <= 0 && (resF == 0 || resB == 0)
  {
    assert Bits(-1) & Bits(-1) == 0xFFFF_FFFF;
    assert Bits(0) & Bits(0) == 0 && Bits(0) & Bits(-1) == 0 && Bits(-1) & Bits(0) == 0;
  }

  lemma LeaveTest(resF: int, resB: int)
    requires -1 <= resF <= 1 && -1 <= resB <= 1
    ensures !(resF > 0 || resB > 0) && Bits(resF) & Bits(resB) != 0 <==> Decision(resF, resB).Leave?
  {}

  /** Both directions in good order: streams faithful, a shutdown only once, only
      behind all writes and only in a direction that has ended with everything
      written. */
  ghost predicate DirectionOk(p: Pipe, r: int) {
    && Faithful(p) && -1 <= r <= 1
    && (forall k :: 0 <= k < |p.log| && p.log[k].Shutdown? ==>
          k == |p.log| - 1 && r == -1 && p.buf == [] && Written(p.log) == p.got)
    && (r == -1 && p.buf == [] ==> ShutDown(p))
  }

  predicate ShutDown(p: Pipe) {
    p.log != [] && p.log[|p.log| - 1].Shutdown?
  }

  /** A direction that has done its duty: everything read has been written, and the
      output is shut down. */
  ghost predicate Delivered(p: Pipe) {
    p.buf == [] && Written(p.log) == p.got && ShutDown(p)
  }

  /** A direction that has given up, as only a failed write makes it: bytes that were
      read are left over, and the output is not shut down. */
  predicate Failed(p: Pipe) {
    p.buf != [] && !ShutDown(p)
  }

  lemma EndedDirection(p: Pipe)
    requires DirectionOk(p, -1)
    ensures p.buf == [] <==> ShutDown(p)
    ensures Delivered(p) || Failed(p)
  {
    if ShutDown(p) {
      assert p.log[|p.log| - 1].Shutdown?;
    }
  }

  ghost predicate DuplexOk(d: Duplex) {
    DirectionOk(d.f, d.resF) && DirectionOk(d.b, d.resB) && d.f.cap > 0 && d.b.cap > 0
  }

  /** A call that ends a direction with nothing left to write shuts the output down. */
  lemma EndsShutDown(p: Pipe)
    requires Faithful(p) && p.cap > 0
    ensures Pump(p).1 == -1 && Pump(p).0.buf == [] ==> Pump(p).0.log == p.log + [Shutdown]
  {
    hide ReadOnce, WriteOnce, Written;
    var (q, res) := ReadOnce(p);
    ReadTakes(p);
    ReadResult(p);
    WriteResult(q, res);
    WriteGives(q, res);
  }

  lemma PumpKeeps(p: Pipe, r: int)
    requires DirectionOk(p, r) && p.cap > 0 && r >= 0
    ensures DirectionOk(Pump(p).0, Pump(p).1) && Pump(p).0.cap == p.cap
  {
    PumpFaithful(p);
    PumpResult(p);
    PumpShutsDown(p);
    EndsShutDown(p);
    forall k | 0 <= k < |Pump(p).0.log| && Pump(p).0.log[k].Shutdown?
      ensures k == |p.log| && ReadEnds(p) && p.buf == []
    {
    }
  }

  lemma RoundKeeps(d: Duplex)
    requires DuplexOk(d)
    ensures DuplexOk(Round(d))
    ensures Decision(Round(d).resF, Round(d).resB).Again? || Decision(Round(d).resF, Round(d).resB).WaitIo? ==>
              d.resF >= 0 || d.resB >= 0
    ensures d.resF >= 0 || d.resB >= 0 ==>
              Work(Round(d).f, Round(d).resF) + Work(Round(d).b, Round(d).resB)
              < Work(d.f, d.resF) + Work(d.b, d.resB)
  {
    if d.resF >= 0 {
      PumpKeeps(d.f, d.resF);
      PumpWorks(d.f, d.resF);
    }
    if d.resB >= 0 {
      PumpKeeps(d.b, d.resB);
      PumpWorks(d.b, d.resB);
    }
    DecisionMeans(Round(d).resF, Round(d).resB);
  }

  /** A live direction was stopped by EAGAIN in this call: at its input if there
      was nothing to write, at its output otherwise. */
  predicate Stopped(p: Pipe)
    requires |p.buf| <= p.cap
  {
    if ReadOnce(p).0.buf == [] then ReadBlocks(p) else WriteBlocks(ReadOnce(p).0)
  }

  /** The loop waits exactly when some direction was stopped by EAGAIN and every
      other was stopped too or has ended; then no byte was written. */
  lemma WaitsOnlyWhenStopped(d: Duplex)
    requires DuplexOk(d) && (d.resF >= 0 || d.resB >= 0)
    ensures var e := Round(d);
            && (Decision(e.resF, e.resB).WaitIo? <==>
                  && ((d.resF >= 0 && Stopped(d.f)) || (d.resB >= 0 && Stopped(d.b)))
                  && (d.resF >= 0 && !Stopped(d.f) ==> e.resF == -1)
                  && (d.resB >= 0 && !Stopped(d.b) ==> e.resB == -1))
            && (Decision(e.resF, e.resB).WaitIo? ==>
                  |Written(e.f.log)| == |Written(d.f.log)| && |Written(e.b.log)| == |Written(d.b.log)|)
  {
    var e := Round(d);
    RoundKeeps(d);
    DecisionMeans(e.resF, e.resB);
    if d.resF >= 0 {
      PumpResult(d.f);
      PumpWrites(d.f);
    }
    if d.resB >= 0 {
      PumpResult(d.b);
      PumpWrites(d.b);
    }
    if Decision(e.resF, e.resB).WaitIo? {
      WrittenOnlyGrows(d.f);
      WrittenOnlyGrows(d.b);
    }
  }

  lemma WrittenOnlyGrows(p: Pipe)
    requires Faithful(p) && p.cap > 0
    ensures |Written(Pump(p).0.log)| > |Written(p.log)| <==> Pump(p).1 == 1
    ensures |Written(Pump(p).0.log)| >= |Written(p.log)|
  {
    PumpResult(p);
    PumpWrites(p);
  }

  /** Progress means bytes written: a pass that has only read may be followed by
      a wait. */
  lemma WaitMayFollowRead(b: Byte)
    ensures var d := Start(8, [Data([b])], [NoRoom], [], []);
            Round(d).f.got == [b] && Decision(Round(d).resF, Round(d).resB).WaitIo?
  {
    var d := Start(8, [Data([b])], [NoRoom], [], []);
    assert Round(d).f.buf == [b];
    DecisionMeans(Round(d).resF, Round(d).resB);
  }

  /** The whole loop: rounds until both directions have ended or the yielder
      aborts. `aborts` is what the yielder answers, round by round; behind its
      end the answer is to go on. */
  ghost function Run(d: Duplex, aborts: seq<bool>): Duplex
    requires DuplexOk(d)
    requires d.resF >= 0 || d.resB >= 0
    decreases Work(d.f, d.resF) + Work(d.b, d.resB)
  {
    RoundKeeps(d);
    var e := Round(d);
    if Decision(e.resF, e.resB).Leave? || (aborts != [] && aborts[0]) then e
    else Run(e, if aborts == [] then [] else aborts[1..])
  }

  /** Whatever the descriptors do: in both directions the bytes written and then
      those still buffered are the bytes read, in order; an output is shut down
      at most once, with nothing written after it, and only when all that was
      read has been written. Without an abort the loop ends, and exactly with
      both directions ended; each has then either delivered everything and shut
      its output down, or failed to write and kept bytes back. */
  lemma {:induction false} RunDelivers(d: Duplex, aborts: seq<bool>)
    requires DuplexOk(d) && (d.resF >= 0 || d.resB >= 0)
    ensures DuplexOk(Run(d, aborts))
    ensures true !in aborts ==> Run(d, aborts).resF == -1 && Run(d, aborts).resB == -1
    ensures Run(d, aborts).resF == -1 ==>
              if Run(d, aborts).f.buf == [] then Delivered(Run(d, aborts).f) else Failed(Run(d, aborts).f)
    ensures Run(d, aborts).resB == -1 ==>
              if Run(d, aborts).b.buf == [] then Delivered(Run(d, aborts).b) else Failed(Run(d, aborts).b)
    decreases Work(d.f, d.resF) + Work(d.b, d.resB)
  {
    hide Round, Decision, Delivered, Failed;
    RoundKeeps(d);
    var e := Round(d);
    DecisionMeans(e.resF, e.resB);
    if !(Decision(e.resF, e.resB).Leave? || (aborts != [] && aborts[0])) {
      RunDelivers(e, if aborts == [] then [] else aborts[1..]);
    } else {
      EndsWell(e);
    }
  }

  lemma EndsWell(d: Duplex)
    requires DuplexOk(d)
    ensures d.resF == -1 ==> if d.f.buf == [] then Delivered(d.f) else Failed(d.f)
    ensures d.resB == -1 ==> if d.b.buf == [] then Delivered(d.b) else Failed(d.b)
  {
    if d.resF == -1 {
      EndedDirection(d.f);
    }
    if d.resB == -1 {
      EndedDirection(d.b);
    }
  }

  /** The bytes that are still to arrive. */
  function Coming(input: seq<ReadEvent>): seq<Byte> {
    if input == [] then [] else (if input[0].Data? then input[0].bytes else []) + Coming(input[1..])
  }

  /** No byte is lost or read twice: what has been read and what is still to come is
      what was to come. */
  lemma PumpConserves(p: Pipe)
    requires |p.buf| <= p.cap
    ensures Pump(p).0.got + Coming(Pump(p).0.input) == p.got + Coming(p.input)
  {
    hide ReadOnce, WriteOnce, Coming;
    ReadConserves(p);
    WriteGives(ReadOnce(p).0, ReadOnce(p).1);
  }

  lemma ReadConserves(p: Pipe)
    requires |p.buf| <= p.cap
    ensures ReadOnce(p).0.got + Coming(ReadOnce(p).0.input) == p.got + Coming(p.input)
  {
    hide ReadOnce;
    if p.cap > |p.buf| && p.input != [] {
      var behind := p.input[1..];
      assert Coming(p.input) == (if p.input[0].Data? then p.input[0].bytes else []) + Coming(behind);
      if p.input[0].Data? {
        var bytes := p.input[0].bytes;
        var n := Min(|bytes|, p.cap - |p.buf|);
        ReadData(p);
        RestComes(bytes, n, behind);
        Associative(p.got, bytes[..n], (if n == |bytes| then [] else bytes[n..]) + Coming(behind));
      } else {
        ReadOther(p);
        assert [] + Coming(behind) == Coming(behind);
      }
    } else {
      ReadOther(p);
    }
  }

  lemma ReadData(p: Pipe)
    requires |p.buf| < p.cap && p.input != [] && p.input[0].Data?
    ensures var bytes := p.input[0].bytes;
            var n := Min(|bytes|, p.cap - |p.buf|);
            && ReadOnce(p).0.got == p.got + bytes[..n]
            && ReadOnce(p).0.input == (if n == |bytes| then [] else [Data(bytes[n..])]) + p.input[1..]
  {
    assert p.got + [] == p.got;
  }

  lemma ReadOther(p: Pipe)
    requires |p.buf| <= p.cap && (|p.buf| == p.cap || p.input == [] || !p.input[0].Data?)
    ensures ReadOnce(p).0.got == p.got
    ensures ReadOnce(p).0.input == if |p.buf| == p.cap || p.input == [] then p.input else p.input[1..]
  {}

  /** What is left of some data, in front of other events. */
  lemma RestComes(bytes: seq<Byte>, n: nat, behind: seq<ReadEvent>)
    requires n <= |bytes|
    ensures bytes[..n] + ((if n == |bytes| then [] else bytes[n..]) + Coming(behind)) == bytes + Coming(behind)
    ensures Coming((if n == |bytes| then [] else [Data(bytes[n..])]) + behind)
            == (if n == |bytes| then [] else bytes[n..]) + Coming(behind)
  {
    if n == |bytes| {
      assert [] + behind == behind && [] + Coming(behind) == Coming(behind) && bytes[..n] == bytes;
    } else {
      assert ([Data(bytes[n..])] + behind)[1..] == behind;
      assert bytes[..n] + bytes[n..] == bytes;
      Associative(bytes[..n], bytes[n..], Coming(behind));
    }
  }

  lemma {:induction false} RunConserves(d: Duplex, aborts: seq<bool>)
    requires DuplexOk(d) && (d.resF >= 0 || d.resB >= 0)
    ensures var e := Run(d, aborts);
            && e.f.got + Coming(e.f.input) == d.f.got + Coming(d.f.input)
            && e.b.got + Coming(e.b.input) == d.b.got + Coming(d.b.input)
    decreases Work(d.f, d.resF) + Work(d.b, d.resB)
  {
    hide Pump, Coming;
    RoundKeeps(d);
    PumpConserves(d.f);
    PumpConserves(d.b);
    var e := Round(d);
    if !(Decision(e.resF, e.resB).Leave? || (aborts != [] && aborts[0])) {
      RunConserves(e, if aborts == [] then [] else aborts[1..]);
    }
  }

  /** How many calls of the pump report progress, in both directions. */
  ghost function ProgressCalls(d: Duplex, aborts: seq<bool>): nat
    requires DuplexOk(d)
    requires d.resF >= 0 || d.resB >= 0
    decreases Work(d.f, d.resF) + Work(d.b, d.resB)
  {
    RoundKeeps(d);
    var e := Round(d);
    RoundProgress(d)
    + (if Decision(e.resF, e.resB).Leave? || (aborts != [] && aborts[0]) then 0
       else ProgressCalls(e, if aborts == [] then [] else aborts[1..]))
  }

  function RoundProgress(d: Duplex): nat
    requires |d.f.buf| <= d.f.cap && |d.b.buf| <= d.b.cap
  {
    (if d.resF >= 0 && Pump(d.f).1 > 0 then 1 else 0) + (if d.resB >= 0 && Pump(d.b).1 > 0 then 1 else 0)
  }

  /** Calls that report progress are paid for by bytes written, which are bytes
      read. */
  lemma {:induction false} ProgressIsBounded(d: Duplex, aborts: seq<bool>)
    requires DuplexOk(d) && (d.resF >= 0 || d.resB >= 0)
    ensures var e := Run(d, aborts);
            ProgressCalls(d, aborts)
            <= |Written(e.f.log)| - |Written(d.f.log)| + |Written(e.b.log)| - |Written(d.b.log)|
    decreases Work(d.f, d.resF) + Work(d.b, d.resB)
  {
    RoundKeeps(d);
    var e := Round(d);
    RoundWrites(d);
    if !(Decision(e.resF, e.resB).Leave? || (aborts != [] && aborts[0])) {
      ProgressIsBounded(e, if aborts == [] then [] else aborts[1..]);
    }
  }

  lemma RoundWrites(d: Duplex)
    requires DuplexOk(d)
    ensures var e := Round(d);
            |Written(e.f.log)| - |Written(d.f.log)| + |Written(e.b.log)| - |Written(d.b.log)| >= RoundProgress(d)
  {
    hide Pump, Written;
    PumpWrites(d.f);
    PumpWrites(d.b);
  }

  lemma PumpWrites(p: Pipe)
    requires Faithful(p) && p.cap > 0
    ensures |Written(Pump(p).0.log)| >= |Written(p.log)| + (if Pump(p).1 > 0 then 1 else 0)
  {
    hide ReadOnce, WriteOnce, Written;
    ReadTakes(p);
    ReadResult(p);
    WriteAdds(ReadOnce(p).0, ReadOnce(p).1);
    PumpResult(p);
  }

  // ------------------------------------------------------------ the program

  /** The circular buffer: a bounded FIFO of bytes. */
  class CircularBuffer {
    const cap: nat
    var data: seq<Byte>

    constructor (cap: nat)
      ensures this.cap == cap && data == []
    {
      this.cap, data := cap, [];
    }
  }

  /** A descriptor that is read from. */
  class Source {
    var events: seq<ReadEvent>
    ghost var got: seq<Byte>

    /** `readv` with room for n bytes; s < 0 with `again` for EAGAIN. */
    method Readv(n: nat) returns (s: int, again: bool, bytes: seq<Byte>)
      requires n > 0
      modifies this
      ensures s <= n && (s > 0 ==> |bytes| == s) && (s <= 0 ==> bytes == [])
      ensures got == old(got) + bytes
      ensures old(events) == [] ==> s <= 0 && !(s < 0 && again) && events == []
      ensures old(events) != [] ==>
                match old(events)[0]
                case NoData => s < 0 && again && events == old(events)[1..]
                case End => s <= 0 && !(s < 0 && again) && events == old(events)[1..]
                case Data(b) =>
                  s == Min(|b|, n) && bytes == b[..s]
                  && events == (if s == |b| then [] else [Data(b[s..])]) + old(events)[1..]
    {
      if events == [] {
        return 0, false, [];
      }
      var e := events[0];
      events := events[1..];
      match e
      case NoData => s, again, bytes := -1, true, [];
      case End => s, again, bytes := 0, false, [];
      case Data(b) =>
        s, again := Min(|b|, n), false;
        bytes := b[..s];
        if s < |b| {
          events := [Data(b[s..])] + events;
        }
        got := got + bytes;
    }
  }

  /** A descriptor that is written to. */
  class Sink {
    var events: seq<WriteEvent>
    ghost var log: seq<Output>

    method Writev(data: seq<Byte>) returns (s: int, again: bool)
      requires data != []
      modifies this
      ensures s <= |data| && log == old(log) + (if s > 0 then [Wrote(data[..s])] else [])
      ensures events == if old(events) == [] then [] else old(events)[1..]
      ensures if old(events) == [] then s <= 0 && !(s < 0 && again)
              else match old(events)[0]
                case NoRoom => s < 0 && again
                case Broken => s <= 0 && !(s < 0 && again)
                case Room(n) => s == Min(n, |data|) && !again
    {
      if events == [] {
        return -1, false;
      }
      var e := events[0];
      events := events[1..];
      match e
      case NoRoom => s, again := -1, true;
      case Broken => s, again := -1, false;
      case Room(n) =>
        s, again := Min(n, |data|), false;
        if s > 0 {
          log := log + [Wrote(data[..s])];
        }
    }

    method ShutdownWrite()
      modifies this`log
      ensures log == old(log) + [Shutdown]
    {
      log := log + [Shutdown];
    }
  }

  ghost function PipeOf(buf: CircularBuffer, fdIn: Source, fdOut: Sink): Pipe
    reads buf, fdIn, fdOut
  {
    Pipe(buf.cap, buf.data, fdIn.events, fdIn.got, fdOut.events, fdOut.log)
  }

  method TaskIoSplice(buf: CircularBuffer, fdIn: Source, fdOut: Sink) returns (res: int)
    requires |buf.data| <= buf.cap
    modifies buf, fdIn, fdOut
    ensures (PipeOf(buf, fdIn, fdOut), res) == Pump(old(PipeOf(buf, fdIn, fdOut)))
  {
    res := 1;
    if buf.cap - |buf.data| > 0 {
      var s, again, bytes := fdIn.Readv(buf.cap - |buf.data|);
      if 0 >= s {
        if 0 > s && again {
          res := 0;
        } else {
          res := -1;
        }
      } else {
        buf.data := buf.data + bytes;
      }
    }
    ghost var p := old(PipeOf(buf, fdIn, fdOut));
    assert p.buf + [] == p.buf && p.got + [] == p.got;
    assert PipeOf(buf, fdIn, fdOut) == ReadOnce(p).0;
    assert res == ReadOnce(p).1;
    assert p.log + [] == p.log;
    if buf.data != [] {
      var s, again := fdOut.Writev(buf.data);
      if 0 >= s {
        if 0 > s && again {
          res := 0;
        } else {
          res := -1;
        }
      } else {
        res := 1;
        buf.data := buf.data[s..];
      }
    } else if res < 0 {
      fdOut.ShutdownWrite();
    }
  }

  /** One pass of the loop over the directions that have not ended. */
  method Pass(f: CircularBuffer, aIn: Source, bOut: Sink, b: CircularBuffer, bIn: Source, aOut: Sink,
              resF: int, resB: int) returns (resF': int, resB': int)
    requires f != b && aIn != bIn && aOut != bOut
    requires |f.data| <= f.cap && |b.data| <= b.cap
    modifies f, aIn, bOut, b, bIn, aOut
    ensures Duplex(PipeOf(f, aIn, bOut), PipeOf(b, bIn, aOut), resF', resB')
            == Round(old(Duplex(PipeOf(f, aIn, bOut), PipeOf(b, bIn, aOut), resF, resB)))
  {
    resF', resB' := resF, resB;
    if resF' >= 0 {
      resF' := TaskIoSplice(f, aIn, bOut);
    }
    assert PipeOf(b, bIn, aOut) == old(PipeOf(b, bIn, aOut));
    if resB' >= 0 {
      resB' := TaskIoSplice(b, bIn, aOut);
    }
  }

  /** Without capacity every pass moves nothing, reports progress and goes on: the
      loop ends only if it is aborted. */
  lemma SpinsWithoutCapacity(d: Duplex)
    requires d.f.cap == d.b.cap == 0 && d.f.buf == d.b.buf == [] && d.resF == d.resB == 1
    ensures Round(d) == d && Decision(Round(d).resF, Round(d).resB).Again?
  {}

  /** Where the loop ends. */
  ghost function Outcome(size: nat, start: Duplex, aborts: seq<bool>): Duplex
    requires size > 0 ==> DuplexOk(start) && start.resF >= 0
  {
    if size == 0 then start else Run(start, aborts)
  }

  /** The loop between a pass and the next: where it stands in the specified run. */
  ghost predicate Running(size: nat, start: Duplex, aborts: seq<bool>, d: Duplex, answers: seq<bool>)
  {
    if size == 0 then
      d == start && true in answers && d.f.cap == d.b.cap == 0 && d.f.buf == d.b.buf == [] && d.resF == d.resB == 1
    else
      && DuplexOk(start) && start.resF >= 0 && DuplexOk(d) && (d.resF >= 0 || d.resB >= 0)
      && Run(start, aborts) == Run(d, answers)
  }

  ghost function Remaining(size: nat, d: Duplex, answers: seq<bool>): nat {
    if size == 0 then |answers| else Work(d.f, d.resF) + Work(d.b, d.resB)
  }

  lemma RunningBuffers(size: nat, start: Duplex, aborts: seq<bool>, d: Duplex, answers: seq<bool>)
    requires Running(size, start, aborts, d, answers)
    ensures |d.f.buf| <= d.f.cap && |d.b.buf| <= d.b.cap
  {}

  lemma PassRuns(size: nat, start: Duplex, aborts: seq<bool>, d: Duplex, answers: seq<bool>)
    requires Running(size, start, aborts, d, answers)
    requires |d.f.buf| <= d.f.cap && |d.b.buf| <= d.b.cap
    ensures size > 0 ==> DuplexOk(start) && start.resF >= 0
    ensures var e := Round(d);
            && -1 <= e.resF <= 1 && -1 <= e.resB <= 1
            && if Decision(e.resF, e.resB).Leave? || (answers != [] && answers[0])
               then e == Outcome(size, start, aborts)
               else
                 var rest := if answers == [] then [] else answers[1..];
                 Running(size, start, aborts, e, rest) && Remaining(size, e, rest) < Remaining(size, d, answers)
  {
    if size == 0 {
      SpinsWithoutCapacity(d);
    } else {
      RoundKeeps(d);
      DecisionMeans(Round(d).resF, Round(d).resB);
    }
  }

  /** The loop. `aborts` is what the yielder answers, round by round. */
  method Rounds(f: CircularBuffer, aIn: Source, bOut: Sink, b: CircularBuffer, bIn: Source, aOut: Sink,
                ghost size: nat, ghost start: Duplex, aborts: seq<bool>) returns (ghost end: Duplex)
    requires f != b && aIn != bIn && aOut != bOut
    requires start == Duplex(PipeOf(f, aIn, bOut), PipeOf(b, bIn, aOut), 1, 1)
    requires Running(size, start, aborts, start, aborts)
    modifies f, aIn, bOut, b, bIn, aOut
    ensures (size > 0 ==> DuplexOk(start)) && end == Outcome(size, start, aborts)
    ensures aIn.got == end.f.got && bOut.log == end.f.log && bIn.got == end.b.got && aOut.log == end.b.log
  {
    hide Round, Run, Work, DuplexOk, Running, Remaining, Outcome, Bits, Decision;
    var resF, resB, answers := 1, 1, aborts;
    end := start;
    while true
      invariant end == Duplex(PipeOf(f, aIn, bOut), PipeOf(b, bIn, aOut), resF, resB)
      invariant Running(size, start, aborts, end, answers)
      decreases Remaining(size, end, answers)
    {
      RunningBuffers(size, start, aborts, end, answers);
      PassRuns(size, start, aborts, end, answers);
      resF, resB := Pass(f, aIn, bOut, b, bIn, aOut, resF, resB);
      end := Round(end);
      LeaveTest(resF, resB);
      if !(resF > 0 || resB > 0) && Bits(resF) & Bits(resB) != 0 {
        return;
      }
      if answers != [] {
        var abort := answers[0];
        answers := answers[1..];
        if abort {
          return;
        }
      }
    }
  }

  /** The bidirectional splice. `haveF` and `haveB` say whether the two buffers
      could be allocated; without them nothing is read or written. Without
      capacity the loop would only end by an abort. */
  method UsSplice(aIn: Source, aOut: Sink, bIn: Source, bOut: Sink, size: nat,
                  haveF: bool, haveB: bool, aborts: seq<bool>) returns (ghost end: Duplex)
    requires aIn != bIn && aOut != bOut && (size > 0 || true in aborts)
    requires aIn.got == bIn.got == [] && aOut.log == bOut.log == []
    modifies aIn, aOut, bIn, bOut
    ensures haveF && haveB ==>
              end == Outcome(size, Start(size, old(aIn.events), old(bOut.events),
                                         old(bIn.events), old(aOut.events)), aborts)
              && aIn.got == end.f.got && bOut.log == end.f.log
              && bIn.got == end.b.got && aOut.log == end.b.log
    ensures !(haveF && haveB) ==> aIn.got == bIn.got == [] && aOut.log == bOut.log == []
  {
    hide Run, Work, DuplexOk, Running;
    end := Start(size, [], [], [], []);
    if !haveF || !haveB {
      return;
    }
    var f := new CircularBuffer(size);
    var b := new CircularBuffer(size);
    ghost var start := Start(size, aIn.events, bOut.events, bIn.events, aOut.events);
    Starts(size, start, aborts);
    end := Rounds(f, aIn, bOut, b, bIn, aOut, size, start, aborts);
  }

  lemma Starts(size: nat, start: Duplex, aborts: seq<bool>)
    requires start == Start(size, start.f.input, start.f.output, start.b.input, start.b.output)
    requires size > 0 || true in aborts
    ensures Running(size, start, aborts, start, aborts)
  {}

  /** Two empty buffers between fresh descriptors. */
  function Start(size: nat, aIn: seq<ReadEvent>, bOut: seq<WriteEvent>,
                 bIn: seq<ReadEvent>, aOut: seq<WriteEvent>): (d: Duplex)
    ensures size > 0 ==> DuplexOk(d)
  {
    Duplex(Pipe(size, [], aIn, [], bOut, []), Pipe(size, [], bIn, [], aOut, []), 1, 1)
  }
}
