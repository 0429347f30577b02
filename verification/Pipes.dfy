/**
 The anonymous pipes of the process server: readers, writers, blocked reads and queued writes.
 `Next` gives every handler as one atomic step; the class below has the handlers as they are
 written, each proved equal to its step.
 */
module Pipes {
  import opened Basics
  import opened Octets

  type Pid = int

  const EPIPE := 32

  datatype ReadRequest = ReadRequest(count: nat, pid: Pid)
  datatype WriteRequest = WriteRequest(size: nat, data: seq<Octet>, pid: Pid, replied: bool)
  datatype Pipe = Pipe(readers: set<Pid>, writers: set<Pid>, readsPending: seq<ReadRequest>,
    writesPending: seq<WriteRequest>)

  /** A reply to a process: the new pipe, bytes read, nothing to read yet, the count of a write, or a plain result. */
  datatype Reply =
    | Created(pid: Pid, id: nat)
    | Data(pid: Pid, data: seq<Octet>)
    | Again(pid: Pid)
    | Count(pid: Pid, count: nat)
    | Closed(pid: Pid)

  /** All bytes a pipe was given and all it gave out; `deaf` once it has been without a reader. */
  datatype Stream = Stream(written: seq<Octet>, delivered: seq<Octet>, deaf: bool)

  datatype Server = Server(nextId: nat, pipes: map<nat, Pipe>, streams: map<nat, Stream>)

  /** One entry of a spawned process's descriptor setup. */
  datatype PipeSpec = PipeSpec(fd: nat, id: nat, isWriter: bool) | NotAPipe

  datatype Event =
    | APipe(src: Pid)
    | Write(src: Pid, id: nat, data: seq<Octet>)
    | Read(src: Pid, id: nat, count: nat, nonblock: bool)
    | Close(src: Pid, id: nat, writer: bool)
    | AddPipes(pid: Pid, specs: seq<PipeSpec>)
    | DeleteProcess(pid: Pid)

  function Min(a: nat, b: nat): nat { if a < b then a else b }

  /** The bytes handed out by a list of replies. */
  function Bytes(replies: seq<Reply>): seq<Octet>
  {
    if replies == [] then []
    else (if replies[0].Data? then replies[0].data else []) + Bytes(replies[1..])
  }

  /** The bytes waiting in a queue of writes. */
  function Queued(writes: seq<WriteRequest>): seq<Octet>
  {
    if writes == [] then [] else writes[0].data + Queued(writes[1..])
  }

  datatype Served = Served(left: seq<ReadRequest>, data: seq<Octet>, replies: seq<Reply>)

  /** Blocked reads answered in order from `data`. */
  function Serve(pending: seq<ReadRequest>, data: seq<Octet>): Served
    decreases |pending|
  {
    if data == [] || pending == [] then Served(pending, data, [])
    else
      var n := Min(pending[0].count, |data|);
      var rest := Serve(pending[1..], data[n..]);
      Served(rest.left, rest.data, [Data(pending[0].pid, data[..n])] + rest.replies)
  }

  datatype Outcome = Outcome(pipe: Pipe, replies: seq<Reply>)

  function WritePipe(p: Pipe, src: Pid, data: seq<Octet>): Outcome
  {
    var s := Serve(p.readsPending, data);
    if s.data == [] then Outcome(p.(readsPending := s.left), s.replies + [Count(src, |data|)])
    else if p.readers != {} then
      Outcome(p.(readsPending := s.left, writesPending := p.writesPending + [WriteRequest(|data|, s.data, src, true)]),
              s.replies + [Count(src, |data|)])
    else Outcome(p.(readsPending := s.left), s.replies + [Count(src, EPIPE)])
  }

  function ReadPipe(p: Pipe, src: Pid, count: nat, nonblock: bool): Outcome
  {
    if p.writesPending != [] then
      var item := p.writesPending[0];
      if |item.data| > count then
        Outcome(p.(writesPending := [item.(data := item.data[count..])] + p.writesPending[1..]),
          [Data(src, item.data[..count])])
      else
        Outcome(p.(writesPending := p.writesPending[1..]),
                [Data(src, item.data)] + if item.replied then [] else [Count(item.pid, item.size)])
    else if p.writers != {} then
      if nonblock then Outcome(p, [Again(src)])
      else Outcome(p.(readsPending := p.readsPending + [ReadRequest(count, src)]), [])
    else Outcome(p, [Data(src, [])])
  }

  /** An empty read for every blocked reader. */
  function EndReads(pending: seq<ReadRequest>): seq<Reply>
  {
    if pending == [] then [] else [Data(pending[0].pid, [])] + EndReads(pending[1..])
  }

  function FailWrites(writes: seq<WriteRequest>): seq<Reply>
  {
    if writes == [] then [] else [Count(writes[0].pid, EPIPE)] + FailWrites(writes[1..])
  }

  /** The pipe without one end of `pid`; it is dropped when no process holds it. */
  function ClosePipe(p: Pipe, pid: Pid, writer: bool): Outcome
  {
    var q := if writer then p.(writers := p.writers - {pid}) else p.(readers := p.readers - {pid});
    if q.writers == {} && q.readers == {} then Outcome(q, [])
    else if q.writers == {} then Outcome(q.(readsPending := []), EndReads(q.readsPending))
    else if q.readers == {} then Outcome(q.(writesPending := []), FailWrites(q.writesPending))
    else Outcome(q, [])
  }

  function Held(p: Pipe): bool { p.readers != {} || p.writers != {} }

  /** The server with pipe `id` replaced by `p`, or without it when no process holds it. */
  function Store(s: Server, id: nat, p: Pipe, written: seq<Octet>, delivered: seq<Octet>): Server
    requires id in s.pipes && id in s.streams
  {
    var h := s.streams[id];
    var h' := Stream(h.written + written, h.delivered + delivered, h.deaf || p.readers == {});
    s.(pipes := if Held(p) then s.pipes[id := p] else s.pipes - {id}, streams := s.streams[id := h'])
  }

  datatype Result = Result(server: Server, replies: seq<Reply>)

  function CloseEnd(s: Server, pid: Pid, id: nat, writer: bool): Result
    requires s.pipes.Keys <= s.streams.Keys
  {
    if id !in s.pipes then Result(s, [])
    else
      var o := ClosePipe(s.pipes[id], pid, writer);
      Result(Store(s, id, o.pipe, [], []), o.replies)
  }

  /** Both ends of `pid` closed on pipe `id`, the reading end first. */
  function Leave(s: Server, pid: Pid, id: nat): (r: Result)
    requires s.pipes.Keys <= s.streams.Keys
    ensures r.server.pipes.Keys <= r.server.streams.Keys && r.server.nextId == s.nextId
  {
    if id !in s.pipes then Result(s, [])
    else
      var p := s.pipes[id];
      var a := if pid in p.readers then CloseEnd(s, pid, id, false) else Result(s, []);
      var b := if pid in p.writers then CloseEnd(a.server, pid, id, true) else Result(a.server, []);
      Result(b.server, a.replies + b.replies)
  }

  /** The process leaves every pipe from `id` on, in the order of their ids. */
  function LeaveFrom(s: Server, pid: Pid, id: nat): (r: Result)
    requires s.pipes.Keys <= s.streams.Keys
    decreases s.nextId - id
  {
    if id >= s.nextId then Result(s, [])
    else
      var a := Leave(s, pid, id);
      var b := LeaveFrom(a.server, pid, id + 1);
      Result(b.server, a.replies + b.replies)
  }

  function Join(s: Server, pid: Pid, spec: PipeSpec): Server
  {
    if spec.NotAPipe? || spec.id !in s.pipes then s
    else
      var p := s.pipes[spec.id];
      s.(pipes := s.pipes[spec.id :=
        if spec.isWriter then p.(writers := p.writers + {pid}) else p.(readers := p.readers + {pid})])
  }

  function JoinAll(s: Server, pid: Pid, specs: seq<PipeSpec>): Server
    decreases |specs|
  {
    if specs == [] then s else JoinAll(Join(s, pid, specs[0]), pid, specs[1..])
  }

  /** Every handler of the pipe server as one step. */
  function Next(s: Server, e: Event): Result
    requires s.pipes.Keys <= s.streams.Keys
  {
    match e
    case APipe(src) =>
      Result(Server(s.nextId + 1, s.pipes[s.nextId := Pipe({src}, {src}, [], [])],
        s.streams[s.nextId := Stream([], [], false)]),
             [Created(src, s.nextId)])
    case Write(src, id, data) =>
      if id !in s.pipes || src !in s.pipes[id].writers then Result(s, [Count(src, EPIPE)])
      else
        var o := WritePipe(s.pipes[id], src, data);
        Result(Store(s, id, o.pipe, data, Bytes(o.replies)), o.replies)
    case Read(src, id, count, nonblock) =>
      if count == 0 || id !in s.pipes || src !in s.pipes[id].readers then Result(s, [Data(src, [])])
      else
        var o := ReadPipe(s.pipes[id], src, count, nonblock);
        Result(Store(s, id, o.pipe, [], Bytes(o.replies)), o.replies)
    case Close(src, id, writer) =>
      var r := CloseEnd(s, src, id, writer);
      Result(r.server, r.replies + [Closed(src)])
    case AddPipes(pid, specs) => Result(JoinAll(s, pid, specs), [])
    case DeleteProcess(pid) => LeaveFrom(s, pid, 1)
  }

  /**
   Blocked reads and queued writes never coexist, none is empty, queued writes are answered, and no
   one waits for an end nobody holds.
   */
  ghost predicate PipeOk(p: Pipe)
  {
    && Held(p)
    && (p.readsPending == [] || p.writesPending == [])
    && (forall r :: r in p.readsPending ==> r.count > 0)
    && (forall w :: w in p.writesPending ==> w.data != [] && w.replied)
    && (p.writers == {} ==> p.readsPending == [])
    && (p.readers == {} ==> p.writesPending == [])
  }

  /** While the pipe has had a reader: what was delivered, then what is queued, is all that was written, in order. */
  ghost predicate Conserves(p: Pipe, h: Stream)
  {
    && (p.readers == {} ==> h.deaf)
    && (!h.deaf ==> h.delivered + Queued(p.writesPending) == h.written)
  }

  ghost predicate Inv(s: Server)
  {
    && s.nextId >= 1 && s.pipes.Keys <= s.streams.Keys
    && (forall id :: id in s.streams ==> 1 <= id < s.nextId)
    && (forall id :: id in s.pipes ==> PipeOk(s.pipes[id]) && Conserves(s.pipes[id], s.streams[id]))
  }

  lemma {:induction false} BytesConcat(a: seq<Reply>, b: seq<Reply>)
    ensures Bytes(a + b) == Bytes(a) + Bytes(b)
    decreases |a|
  {
    if a == [] {
      assert a + b == b;
    } else {
      BytesConcat(a[1..], b);
      assert (a + b)[1..] == a[1..] + b;
    }
  }

  lemma {:induction false} QueuedMore(writes: seq<WriteRequest>, w: WriteRequest)
    ensures Queued(writes + [w]) == Queued(writes) + w.data
    decreases |writes|
  {
    if writes == [] {
      assert Queued([w]) == w.data + Queued([]);
    } else {
      QueuedMore(writes[1..], w);
      assert (writes + [w])[1..] == writes[1..] + [w];
    }
  }

  /** What is served and what is left make the data. */
  lemma {:induction false} ServeSplits(pending: seq<ReadRequest>, data: seq<Octet>)
    ensures Bytes(Serve(pending, data).replies) + Serve(pending, data).data == data
    decreases |pending|
  {
    if data != [] && pending != [] {
      var n := Min(pending[0].count, |data|);
      ServeSplits(pending[1..], data[n..]);
      var rest := Serve(pending[1..], data[n..]);
      BytesConcat([Data(pending[0].pid, data[..n])], rest.replies);
      assert Bytes([Data(pending[0].pid, data[..n])]) == data[..n] + [];
      Assoc(data[..n], Bytes(rest.replies), rest.data);
    }
  }

  /** Either every byte is served or every reader is; whoever still waits was waiting before. */
  lemma {:induction false} ServeLeft(pending: seq<ReadRequest>, data: seq<Octet>)
    ensures
      var s := Serve(pending, data);
      (s.data == [] || s.left == []) && forall r :: r in s.left ==> r in pending
    decreases |pending|
  {
    if data != [] && pending != [] { ServeLeft(pending[1..], data[Min(pending[0].count, |data|)..]); }
  }

  lemma BytesEnd(replies: seq<Reply>, last: Reply)
    requires !last.Data?
    ensures Bytes(replies + [last]) == Bytes(replies)
  {
    BytesConcat(replies, [last]);
    assert Bytes([last]) == [] + Bytes([]);
  }

  /** The history of a pipe after a step. */
  ghost function Heard(h: Stream, p: Pipe, written: seq<Octet>, replies: seq<Reply>): Stream
  {
    Stream(h.written + written, h.delivered + Bytes(replies), h.deaf || p.readers == {})
  }

  lemma WriteKeeps(p: Pipe, h: Stream, src: Pid, data: seq<Octet>)
    requires PipeOk(p) && Conserves(p, h)
    ensures
      var o := WritePipe(p, src, data);
      PipeOk(o.pipe) && Conserves(o.pipe, Heard(h, o.pipe, data, o.replies))
  {
    ServeLeft(p.readsPending, data);
    if !h.deaf {
      if p.readsPending == [] { WriteQueues(p, h, src, data); } else { WriteServes(p, h, src, data); }
    }
  }

  lemma WriteQueues(p: Pipe, h: Stream, src: Pid, data: seq<Octet>)
    requires PipeOk(p) && Conserves(p, h) && !h.deaf && p.readsPending == []
    ensures
      var o := WritePipe(p, src, data);
      h.delivered + Bytes(o.replies) + Queued(o.pipe.writesPending) == h.written + data
  {
    BytesEnd([], Count(src, |data|));
    assert h.delivered + [] == h.delivered;
    if data == [] {
      assert h.written + [] == h.written;
    } else {
      QueuedMore(p.writesPending, WriteRequest(|data|, data, src, true));
      Assoc(h.delivered, Queued(p.writesPending), data);
    }
  }

  lemma WriteServes(p: Pipe, h: Stream, src: Pid, data: seq<Octet>)
    requires PipeOk(p) && Conserves(p, h) && !h.deaf && p.readsPending != []
    ensures
      var o := WritePipe(p, src, data);
      h.delivered + Bytes(o.replies) + Queued(o.pipe.writesPending) == h.written + data
  {
    var s := Serve(p.readsPending, data);
    ServeSplits(p.readsPending, data);
    BytesEnd(s.replies, Count(src, |data|));
    assert h.delivered + [] == h.delivered == h.written;
    assert WritePipe(p, src, data).replies == s.replies + [Count(src, |data|)];
    QueuedMore([], WriteRequest(|data|, s.data, src, true));
    assert Queued([]) + s.data == s.data;
    Assoc(h.delivered, Bytes(s.replies), s.data);
    assert [] + [WriteRequest(|data|, s.data, src, true)] == [WriteRequest(|data|, s.data, src, true)];
  }

  lemma ReadKeeps(p: Pipe, h: Stream, src: Pid, count: nat, nonblock: bool)
    requires PipeOk(p) && Conserves(p, h) && count > 0
    ensures
      var o := ReadPipe(p, src, count, nonblock);
      PipeOk(o.pipe) && Conserves(o.pipe, Heard(h, o.pipe, [], o.replies))
  {
    var o := ReadPipe(p, src, count, nonblock);
    if p.writesPending != [] {
      var item, rest := p.writesPending[0], p.writesPending[1..];
      if |item.data| > count {
        var queue := [item.(data := item.data[count..])] + rest;
        assert queue[1..] == rest;
        assert Bytes(o.replies) == item.data[..count] + [];
        assert h.delivered + item.data[..count] + (item.data[count..] + Queued(rest)) ==
          h.delivered + (item.data + Queued(rest));
      } else {
        BytesConcat([Data(src, item.data)], if item.replied then [] else [Count(item.pid, item.size)]);
        assert Bytes([Data(src, item.data)]) == item.data + [];
        assert Bytes(o.replies) == item.data;
        assert h.delivered + item.data + Queued(rest) == h.delivered + (item.data + Queued(rest));
      }
    } else {
      assert Bytes(o.replies) == [];
      assert h.delivered + [] == h.delivered && h.written + [] == h.written;
    }
  }

  lemma {:induction false} EndReadsSilent(pending: seq<ReadRequest>)
    ensures Bytes(EndReads(pending)) == []
    decreases |pending|
  {
    if pending != [] {
      EndReadsSilent(pending[1..]);
      assert EndReads(pending)[1..] == EndReads(pending[1..]);
    }
  }

  lemma CloseKeeps(p: Pipe, h: Stream, pid: Pid, writer: bool)
    requires PipeOk(p) && Conserves(p, h)
    ensures
      var q := ClosePipe(p, pid, writer).pipe;
      Held(q) ==> PipeOk(q) && Conserves(q, Stream(h.written + [], h.delivered + [], h.deaf || q.readers == {}))
  {
    assert h.delivered + [] == h.delivered && h.written + [] == h.written;
  }

  lemma StoreKeeps(s: Server, id: nat, p: Pipe, written: seq<Octet>, delivered: seq<Octet>)
    requires Inv(s) && id in s.pipes
    requires
      var h := s.streams[id];
      Held(p) ==>
        PipeOk(p) && Conserves(p, Stream(h.written + written, h.delivered + delivered, h.deaf || p.readers == {}))
    ensures Inv(Store(s, id, p, written, delivered))
  {}

  lemma CloseEndKeeps(s: Server, pid: Pid, id: nat, writer: bool)
    requires Inv(s)
    ensures Inv(CloseEnd(s, pid, id, writer).server)
  {
    if id in s.pipes {
      CloseKeeps(s.pipes[id], s.streams[id], pid, writer);
      StoreKeeps(s, id, ClosePipe(s.pipes[id], pid, writer).pipe, [], []);
    }
  }

  lemma LeaveKeeps(s: Server, pid: Pid, id: nat)
    requires Inv(s)
    ensures Inv(Leave(s, pid, id).server)
  {
    CloseEndKeeps(s, pid, id, false);
    CloseEndKeeps(s, pid, id, true);
    if id in s.pipes && pid in s.pipes[id].readers { CloseEndKeeps(CloseEnd(s, pid, id, false).server, pid, id, true); }
  }

  lemma {:induction false} LeaveFromKeeps(s: Server, pid: Pid, id: nat)
    requires Inv(s)
    ensures Inv(LeaveFrom(s, pid, id).server)
    decreases s.nextId - id
  {
    if id < s.nextId {
      LeaveKeeps(s, pid, id);
      LeaveFromKeeps(Leave(s, pid, id).server, pid, id + 1);
    }
  }

  lemma {:induction false} JoinAllKeeps(s: Server, pid: Pid, specs: seq<PipeSpec>)
    requires Inv(s)
    ensures Inv(JoinAll(s, pid, specs))
    decreases |specs|
  {
    if specs != [] {
      assert Inv(Join(s, pid, specs[0]));
      JoinAllKeeps(Join(s, pid, specs[0]), pid, specs[1..]);
    }
  }

  /** Every handler keeps the invariant. */
  lemma NextKeeps(s: Server, e: Event)
    requires Inv(s)
    ensures Inv(Next(s, e).server)
  {
    match e
    case APipe(src) =>
    case Write(src, id, data) =>
      if id in s.pipes && src in s.pipes[id].writers {
        var o := WritePipe(s.pipes[id], src, data);
        WriteKeeps(s.pipes[id], s.streams[id], src, data);
        StoreKeeps(s, id, o.pipe, data, Bytes(o.replies));
      }
    case Read(src, id, count, nonblock) =>
      if count > 0 && id in s.pipes && src in s.pipes[id].readers {
        var o := ReadPipe(s.pipes[id], src, count, nonblock);
        ReadKeeps(s.pipes[id], s.streams[id], src, count, nonblock);
        assert s.streams[id].written + [] == s.streams[id].written;
        StoreKeeps(s, id, o.pipe, [], Bytes(o.replies));
      }
    case Close(src, id, writer) => CloseEndKeeps(s, src, id, writer);
    case AddPipes(pid, specs) => JoinAllKeeps(s, pid, specs);
    case DeleteProcess(pid) => LeaveFromKeeps(s, pid, 1);
  }

  const START: Server := Server(1, map[], map[])

  /** The state and the replies after a run of events. */
  ghost function After(s: Server, events: seq<Event>): (r: Result)
    requires Inv(s)
    ensures Inv(r.server)
    decreases |events|
  {
    if events == [] then Result(s, [])
    else
      NextKeeps(s, events[0]);
      var a := Next(s, events[0]);
      var b := After(a.server, events[1..]);
      Result(b.server, a.replies + b.replies)
  }

  /**
   In any run, on any pipe that has had a reader all along, the bytes delivered and then those
   queued are all the bytes written, in order; and no read waits while bytes are queued.
   */
  lemma ByteStream(events: seq<Event>, id: nat)
    requires id in After(START, events).server.pipes
    ensures
      var s := After(START, events).server;
      && id in s.streams
      && (!s.streams[id].deaf ==> s.streams[id].delivered + Queued(s.pipes[id].writesPending) == s.streams[id].written)
      && (s.pipes[id].readsPending == [] || s.pipes[id].writesPending == [])
      && (s.pipes[id].writers == {} ==> s.pipes[id].readsPending == [])
      && (s.pipes[id].readers == {} ==> s.pipes[id].writesPending == [])
      && (s.pipes[id].readers != {} || s.pipes[id].writers != {})
  {
    assert Inv(After(START, events).server);
  }

  /** The process holds an end of the pipe. */
  ghost predicate On(s: Server, pid: Pid, id: nat)
  {
    id in s.pipes && (pid in s.pipes[id].readers || pid in s.pipes[id].writers)
  }

  lemma CloseEndMembers(s: Server, pid: Pid, id: nat, writer: bool)
    requires s.pipes.Keys <= s.streams.Keys
    ensures
      var s' := CloseEnd(s, pid, id, writer).server;
      forall q, i :: On(s, q, i) && q != pid ==> On(s', q, i)
  {
    var s' := CloseEnd(s, pid, id, writer).server;
    forall q, i | On(s, q, i) && q != pid ensures On(s', q, i) {
      if i == id {
        var p := ClosePipe(s.pipes[id], pid, writer).pipe;
        assert q in p.readers || q in p.writers;
        assert Held(p);
      }
    }
  }

  lemma LeaveMembers(s: Server, pid: Pid, id: nat)
    requires s.pipes.Keys <= s.streams.Keys
    ensures
      var s' := Leave(s, pid, id).server;
      && !On(s', pid, id) && (forall q, i :: On(s', q, i) ==> On(s, q, i))
      && (forall q, i :: On(s, q, i) && q != pid ==> On(s', q, i))
      && (forall q, i :: On(s, q, i) && i != id ==> On(s', q, i))
  {
    if id in s.pipes {
      CloseEndMembers(s, pid, id, false);
      CloseEndMembers(s, pid, id, true);
      CloseEndMembers(CloseEnd(s, pid, id, false).server, pid, id, true);
    }
  }

  /** Once a process is deleted it holds no pipe, and every other process holds what it held. */
  lemma {:induction false} LeaveFromMembers(s: Server, pid: Pid, id: nat)
    requires s.pipes.Keys <= s.streams.Keys
    ensures
      var s' := LeaveFrom(s, pid, id).server;
      && (forall i :: id <= i < s.nextId ==> !On(s', pid, i)) && (forall q, i :: On(s', q, i) ==> On(s, q, i))
      && (forall q, i :: On(s, q, i) && q != pid ==> On(s', q, i))
    decreases s.nextId - id
  {
    if id < s.nextId {
      LeaveMembers(s, pid, id);
      LeaveFromMembers(Leave(s, pid, id).server, pid, id + 1);
    }
  }

  /** A deleted process holds no pipe, and every other process holds exactly what it held. */
  lemma DeletedHoldsNothing(s: Server, pid: Pid)
    requires Inv(s)
    ensures
      var s' := Next(s, DeleteProcess(pid)).server;
      forall q, i :: On(s', q, i) <==> On(s, q, i) && q != pid
  {
    LeaveFromMembers(s, pid, 1);
    var s' := Next(s, DeleteProcess(pid)).server;
    assert s' == LeaveFrom(s, pid, 1).server;
    forall i: nat | On(s, pid, i) ensures !On(s', pid, i) {
      InUse(s, pid, i);
    }
  }

  lemma InUse(s: Server, pid: Pid, i: nat)
    requires Inv(s) && On(s, pid, i)
    ensures 1 <= i < s.nextId
  {
    assert i in s.pipes.Keys;
    assert i in s.streams;
  }

  lemma {:induction false} JoinAllMembers(s: Server, pid: Pid, specs: seq<PipeSpec>)
    ensures forall q, i :: On(JoinAll(s, pid, specs), q, i) ==> q == pid || On(s, q, i)
    decreases |specs|
  {
    if specs != [] { JoinAllMembers(Join(s, pid, specs[0]), pid, specs[1..]); }
  }

  /** A handler gives pipe ends to no one but the process that creates a pipe or is spawned with one. */
  lemma NextMembers(s: Server, e: Event)
    requires s.pipes.Keys <= s.streams.Keys
    ensures forall q, i :: On(Next(s, e).server, q, i) ==>
      On(s, q, i) || (e.APipe? && q == e.src) || (e.AddPipes? && q == e.pid)
  {
    match e
    case AddPipes(pid, specs) => JoinAllMembers(s, pid, specs);
    case DeleteProcess(pid) => LeaveFromMembers(s, pid, 1);
    case _ =>
  }
}
