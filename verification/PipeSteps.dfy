/** What each message to the pipe server does, written out: who is answered with what, and what then waits. */
module PipeSteps {
  import opened Basics
  import opened Octets
  import opened Pipes

  /** Only the pipe `id` may have changed, and there only what waits. */
  ghost predicate OnlyWaits(s: Server, s': Server, id: nat)
    requires id in s.pipes
  {
    && s'.nextId == s.nextId && s'.pipes.Keys == s.pipes.Keys
    && (forall i :: i in s.pipes && i != id ==> s'.pipes[i] == s.pipes[i])
    && s'.pipes[id].readers == s.pipes[id].readers && s'.pipes[id].writers == s.pipes[id].writers
  }

  /** A read of nothing, or by a process that is no reader, is empty. */
  lemma ReadRefused(s: Server, src: Pid, id: nat, count: nat, nonblock: bool)
    requires Inv(s) && (count == 0 || id !in s.pipes || src !in s.pipes[id].readers)
    ensures Next(s, Read(src, id, count, nonblock)) == Result(s, [Data(src, [])])
  {
  }

  /** With bytes queued the reader, and nobody else, gets what it asks for of the first write. */
  lemma ReadGets(s: Server, src: Pid, id: nat, count: nat, nonblock: bool)
    requires Inv(s) && count > 0 && id in s.pipes && src in s.pipes[id].readers && s.pipes[id].writesPending != []
    ensures
      var r, first := Next(s, Read(src, id, count, nonblock)), s.pipes[id].writesPending[0].data;
      && OnlyWaits(s, r.server, id) && |r.replies| == 1 && r.replies[0].Data? && r.replies[0].pid == src
      && var got := r.replies[0].data;
         && got != [] && |got| == (if |first| <= count then |first| else count)
         && Queued(s.pipes[id].writesPending) == got + Queued(r.server.pipes[id].writesPending)
         && r.server.pipes[id].readsPending == s.pipes[id].readsPending
  {
    var p := s.pipes[id];
    var item, rest := p.writesPending[0], p.writesPending[1..];
    assert item in p.writesPending;
    if |item.data| > count {
      var queue := [item.(data := item.data[count..])] + rest;
      assert queue[1..] == rest;
      assert item.data[..count] + (item.data[count..] + Queued(rest)) == item.data + Queued(rest);
    } else {
      assert [Data(src, item.data)] + [] == [Data(src, item.data)];
    }
  }

  /** Without bytes it is told so if it will not block, and otherwise is the last to wait. */
  lemma ReadWaits(s: Server, src: Pid, id: nat, count: nat, nonblock: bool)
    requires Inv(s) && count > 0 && id in s.pipes && src in s.pipes[id].readers
    requires s.pipes[id].writesPending == [] && s.pipes[id].writers != {}
    ensures
      var r := Next(s, Read(src, id, count, nonblock));
      && OnlyWaits(s, r.server, id) && r.replies == (if nonblock then [Again(src)] else [])
      && r.server.pipes[id].writesPending == []
      && r.server.pipes[id].readsPending ==
         s.pipes[id].readsPending + (if nonblock then [] else [ReadRequest(count, src)])
  {
  }

  /** Without bytes and without a writer there is nothing more to read. */
  lemma ReadEnds(s: Server, src: Pid, id: nat, count: nat, nonblock: bool)
    requires Inv(s) && count > 0 && id in s.pipes && src in s.pipes[id].readers
    requires s.pipes[id].writesPending == [] && s.pipes[id].writers == {}
    ensures
      var r := Next(s, Read(src, id, count, nonblock));
      r.replies == [Data(src, [])] && r.server.pipes == s.pipes
  {
  }

  /** A write by a process that is no writer fails. */
  lemma WriteRefused(s: Server, src: Pid, id: nat, data: seq<Octet>)
    requires Inv(s) && (id !in s.pipes || src !in s.pipes[id].writers)
    ensures Next(s, Write(src, id, data)) == Result(s, [Count(src, 32)])
  {
  }

  /** The first reads of `pending` are answered from `data`, each with all it asked for but perhaps the last. */
  ghost predicate Fed(pending: seq<ReadRequest>, data: seq<Octet>, replies: seq<Reply>, left: seq<Octet>)
  {
    && |replies| <= |pending| && (left != [] ==> |replies| == |pending|) && Bytes(replies) + left == data
    && forall i :: 0 <= i < |replies| ==>
         && replies[i].Data? && replies[i].pid == pending[i].pid
         && 0 < |replies[i].data| <= pending[i].count
         && (i + 1 < |replies| || left != [] ==> |replies[i].data| == pending[i].count)
  }

  lemma {:induction false} ServeFeeds(pending: seq<ReadRequest>, data: seq<Octet>)
    requires forall r :: r in pending ==> r.count > 0
    ensures
      var s := Serve(pending, data);
      Fed(pending, data, s.replies, s.data) && s.left == pending[|s.replies|..]
    decreases |pending|
  {
    ServeSplits(pending, data);
    if data != [] && pending != [] {
      var n := Min(pending[0].count, |data|);
      assert pending[0] in pending;
      ServeFeeds(pending[1..], data[n..]);
    }
  }

  /** What a write by a writer does to its pipe: `left` is not read at once. */
  ghost predicate Written(p: Pipe, p': Pipe, src: Pid, data: seq<Octet>, left: seq<Octet>, replies: seq<Reply>)
  {
    && |replies| > 0
    && var n := |replies| - 1;
       && Fed(p.readsPending, data, replies[..n], left) && p'.readsPending == p.readsPending[n..]
       && replies[n] == Count(src, if left != [] && p.readers == {} then 32 else |data|)
       && Queued(p'.writesPending) == Queued(p.writesPending) + (if p.readers == {} then [] else left)
       && p'.readers == p.readers && p'.writers == p.writers
  }

  lemma WriteIs(p: Pipe, src: Pid, data: seq<Octet>) returns (left: seq<Octet>)
    requires forall r :: r in p.readsPending ==> r.count > 0
    ensures
      var o := WritePipe(p, src, data);
      Written(p, o.pipe, src, data, left, o.replies)
  {
    ServeFeeds(p.readsPending, data);
    var served := Serve(p.readsPending, data);
    left := served.data;
    var o := WritePipe(p, src, data);
    assert o.replies[..|o.replies| - 1] == served.replies;
    QueuedMore(p.writesPending, WriteRequest(|data|, left, src, true));
    assert Queued(p.writesPending) + [] == Queued(p.writesPending);
  }

  /**
   A write feeds the reads that wait, in their order, then is answered with its whole length; what is left
   is queued at the end if there is a reader, and otherwise the answer is EPIPE.
   */
  lemma WriteFeeds(s: Server, src: Pid, id: nat, data: seq<Octet>) returns (left: seq<Octet>)
    requires Inv(s) && id in s.pipes && src in s.pipes[id].writers
    ensures
      var r := Next(s, Write(src, id, data));
      OnlyWaits(s, r.server, id) && Written(s.pipes[id], r.server.pipes[id], src, data, left, r.replies)
  {
    left := WriteIs(s.pipes[id], src, data);
  }

  /** A new pipe has a new id and its creator at both ends; nothing else changes. */
  lemma CreateOpens(s: Server, src: Pid)
    requires Inv(s)
    ensures
      var r := Next(s, APipe(src));
      && s.nextId !in s.pipes && r.replies == [Created(src, s.nextId)]
      && r.server.pipes == s.pipes[s.nextId := Pipe({src}, {src}, [], [])] && r.server.nextId == s.nextId + 1
  {
    assert s.nextId in s.pipes ==> s.nextId in s.streams;
  }

  /**
   The pipe once its ends are `readers` and `writers`: gone without any, and nothing waits for an
   end nobody holds.
   */
  ghost predicate Narrowed(s: Server, s': Server, id: nat, readers: set<Pid>, writers: set<Pid>)
    requires id in s.pipes
  {
    if readers == {} && writers == {} then id !in s'.pipes
    else
      && id in s'.pipes && s'.pipes[id].readers == readers && s'.pipes[id].writers == writers
      && s'.pipes[id].readsPending == (if writers == {} then [] else s.pipes[id].readsPending)
      && s'.pipes[id].writesPending == if readers == {} then [] else s.pipes[id].writesPending
  }

  /** Each read that waited is told the end, each write that was queued that it fails, in their order. */
  ghost predicate Released(p: Pipe, readers: set<Pid>, writers: set<Pid>, replies: seq<Reply>)
  {
    if readers == {} && writers == {} then replies == []
    else if writers == {} then
      |replies| == |p.readsPending| && forall i :: 0 <= i < |replies| ==> replies[i] == Data(p.readsPending[i].pid, [])
    else if readers == {} then
      |replies| == |p.writesPending|
        && forall i :: 0 <= i < |replies| ==> replies[i] == Count(p.writesPending[i].pid, 32)
    else replies == []
  }

  lemma {:induction false} EndsAll(pending: seq<ReadRequest>)
    ensures |EndReads(pending)| == |pending|
    ensures forall i :: 0 <= i < |pending| ==> EndReads(pending)[i] == Data(pending[i].pid, [])
    decreases |pending|
  {
    if pending != [] { EndsAll(pending[1..]); }
  }

  lemma {:induction false} FailsAll(writes: seq<WriteRequest>)
    ensures |FailWrites(writes)| == |writes|
    ensures forall i :: 0 <= i < |writes| ==> FailWrites(writes)[i] == Count(writes[i].pid, 32)
    decreases |writes|
  {
    if writes != [] { FailsAll(writes[1..]); }
  }

  lemma PipeReleases(p: Pipe, pid: Pid, writer: bool)
    ensures
      var o := ClosePipe(p, pid, writer);
      var readers := if writer then p.readers else p.readers - {pid};
      var writers := if writer then p.writers - {pid} else p.writers;
      && o.pipe.readers == readers && o.pipe.writers == writers && Released(p, readers, writers, o.replies)
      && (readers != {} || writers != {} ==>
           && (writers == {} ==> o.pipe.readsPending == [])
           && (readers == {} && writers != {} ==> o.pipe.writesPending == [])
           && (writers != {} ==> o.pipe.readsPending == p.readsPending)
           && (readers != {} ==> o.pipe.writesPending == p.writesPending))
  {
    EndsAll(p.readsPending);
    FailsAll(p.writesPending);
  }

  lemma EndReleases(s: Server, pid: Pid, id: nat, writer: bool)
    requires Inv(s)
    ensures
      var r := CloseEnd(s, pid, id, writer);
      && r.server.nextId == s.nextId && (forall i :: i != id ==> (i in r.server.pipes <==> i in s.pipes))
      && (forall i :: i != id && i in s.pipes ==> r.server.pipes[i] == s.pipes[i])
      && if id !in s.pipes then id !in r.server.pipes && r.replies == []
         else
           var p := s.pipes[id];
           var readers := if writer then p.readers else p.readers - {pid};
           var writers := if writer then p.writers - {pid} else p.writers;
           Narrowed(s, r.server, id, readers, writers) && Released(p, readers, writers, r.replies)
  {
    if id in s.pipes { PipeReleases(s.pipes[id], pid, writer); }
  }

  /**
   Closing an end takes that end of that pipe from the caller, and releases what waited for it when
   it was the last.
   */
  lemma CloseReleases(s: Server, src: Pid, id: nat, writer: bool)
    requires Inv(s)
    ensures
      var r := Next(s, Close(src, id, writer));
      && |r.replies| > 0 && r.replies[|r.replies| - 1] == Closed(src) && r.server.nextId == s.nextId
      && (forall i :: i != id ==> (i in r.server.pipes <==> i in s.pipes))
      && (forall i :: i != id && i in s.pipes ==> r.server.pipes[i] == s.pipes[i])
      && if id !in s.pipes then id !in r.server.pipes && |r.replies| == 1
         else
           var p := s.pipes[id];
           var readers := if writer then p.readers else p.readers - {src};
           var writers := if writer then p.writers - {src} else p.writers;
           && Narrowed(s, r.server, id, readers, writers)
           && Released(p, readers, writers, r.replies[..|r.replies| - 1])
  {
    EndReleases(s, src, id, writer);
    var r := Next(s, Close(src, id, writer));
    assert r.replies[..|r.replies| - 1] == CloseEnd(s, src, id, writer).replies;
  }

  // ----- the end of a process -----

  /** Whom the leaving process answers: the writes it alone could still read, or the reads it alone could still feed. */
  ghost predicate LeftBehind(p: Pipe, pid: Pid, replies: seq<Reply>)
  {
    if pid in p.readers && p.readers == {pid} && p.writers != {} then
      |replies| == |p.writesPending|
        && forall i :: 0 <= i < |replies| ==> replies[i] == Count(p.writesPending[i].pid, 32)
    else if pid in p.writers && p.writers == {pid} && p.readers - {pid} != {} then
      |replies| == |p.readsPending| && forall i :: 0 <= i < |replies| ==> replies[i] == Data(p.readsPending[i].pid, [])
    else replies == []
  }

  /** The pipe, and the answers, once the process has closed the reading end it holds. */
  function Unread(p: Pipe, pid: Pid): Outcome
  {
    if pid in p.readers then ClosePipe(p, pid, false) else Outcome(p, [])
  }

  /** And then the writing end. */
  function Unheld(p: Pipe, pid: Pid): Outcome
  {
    var a := Unread(p, pid);
    if pid in p.writers then
      var b := ClosePipe(a.pipe, pid, true);
      Outcome(b.pipe, a.replies + b.replies)
    else a
  }

  lemma UnreadIs(p: Pipe, pid: Pid)
    requires PipeOk(p)
    ensures
      var a := Unread(p, pid);
      && a.pipe.readers == p.readers - {pid} && a.pipe.writers == p.writers
      && (Held(a.pipe) ==> PipeOk(a.pipe))
      && (p.writers != {} ==> a.pipe.readsPending == p.readsPending)
      && (p.readers - {pid} != {} ==> a.pipe.writesPending == p.writesPending)
      && (if pid in p.readers && p.readers == {pid} && p.writers != {} then a.replies == FailWrites(p.writesPending)
          else a.replies == [])
  {
    assert pid !in p.readers ==> p.readers - {pid} == p.readers;
  }

  lemma UnheldIs(p: Pipe, pid: Pid)
    requires PipeOk(p)
    ensures
      var b := Unheld(p, pid);
      && b.pipe.readers == p.readers - {pid} && b.pipe.writers == p.writers - {pid}
      && (Held(b.pipe) ==> PipeOk(b.pipe))
      && (b.pipe.writers != {} ==> b.pipe.readsPending == p.readsPending)
      && (b.pipe.readers != {} ==> b.pipe.writesPending == p.writesPending)
      && (if pid in p.readers && p.readers == {pid} && p.writers != {} then b.replies == FailWrites(p.writesPending)
          else if pid in p.writers && p.writers == {pid} && p.readers - {pid} != {} then
            b.replies == EndReads(p.readsPending)
          else b.replies == [])
  {
    UnreadIs(p, pid);
    var a := Unread(p, pid);
    if pid in p.writers {
      var b := ClosePipe(a.pipe, pid, true);
      assert a.replies + [] == a.replies;
    } else {
      assert p.writers - {pid} == p.writers;
    }
  }

  /** On the server the process leaves the pipe just so. */
  lemma LeaveIs(s: Server, pid: Pid, id: nat)
    requires Inv(s) && id in s.pipes
    ensures
      var r, b := Leave(s, pid, id), Unheld(s.pipes[id], pid);
      && r.replies == b.replies && r.server.pipes.Keys - {id} == s.pipes.Keys - {id}
      && (forall i :: i != id && i in s.pipes ==> i in r.server.pipes && r.server.pipes[i] == s.pipes[i])
      && if Held(b.pipe) then id in r.server.pipes && r.server.pipes[id] == b.pipe else id !in r.server.pipes
  {
    var p := s.pipes[id];
    assert PipeOk(p);
    var a := if pid in p.readers then CloseEnd(s, pid, id, false) else Result(s, []);
    assert a.replies == Unread(p, pid).replies;
    UnreadIs(p, pid);
    if pid in p.writers {
      assert Held(Unread(p, pid).pipe) && a.server.pipes[id] == Unread(p, pid).pipe;
    } else {
      assert a.replies + [] == a.replies;
    }
  }

  /** What the process leaves of pipe `i`, and whom it answers there. */
  ghost predicate Abandoned(s: Server, s': Server, pid: Pid, i: nat, replies: seq<Reply>)
  {
    if i !in s.pipes then i !in s'.pipes && replies == []
    else
      && Narrowed(s, s', i, s.pipes[i].readers - {pid}, s.pipes[i].writers - {pid})
      && LeftBehind(s.pipes[i], pid, replies)
  }

  /** The same as one fact. */
  ghost predicate PipeLeft(s: Server, s': Server, pid: Pid, i: nat, replies: seq<Reply>)
  {
    var left := Abandoned(s, s', pid, i, replies);
    left
  }

  ghost predicate SamePipe(s: Server, s': Server, i: nat)
  {
    (i in s'.pipes <==> i in s.pipes) && (i in s.pipes ==> s'.pipes[i] == s.pipes[i])
  }

  lemma LeaveReleases(s: Server, pid: Pid, id: nat)
    requires Inv(s)
    ensures
      var r := Leave(s, pid, id);
      && Inv(r.server) && r.server.nextId == s.nextId && PipeLeft(s, r.server, pid, id, r.replies)
      && forall i: nat :: i != id ==> SamePipe(s, r.server, i)
  {
    LeaveKeeps(s, pid, id);
    LeaveAbandons(s, pid, id);
    if id in s.pipes {
      LeaveIs(s, pid, id);
      forall i: nat | i != id ensures SamePipe(s, Leave(s, pid, id).server, i) {
        assert i in Leave(s, pid, id).server.pipes.Keys - {id} <==> i in s.pipes.Keys - {id};
      }
    }
  }

  lemma LeaveAbandons(s: Server, pid: Pid, id: nat)
    requires Inv(s)
    ensures Abandoned(s, Leave(s, pid, id).server, pid, id, Leave(s, pid, id).replies)
  {
    if id in s.pipes {
      LeaveIs(s, pid, id);
      UnheldIs(s.pipes[id], pid);
      EndsAll(s.pipes[id].readsPending);
      FailsAll(s.pipes[id].writesPending);
    }
  }

  /** The parts from number `i` on, one after the other. */
  function Flat(parts: seq<seq<Reply>>, i: nat): seq<Reply>
    decreases |parts| - i
  {
    if i >= |parts| then [] else parts[i] + Flat(parts, i + 1)
  }

  lemma {:induction false} FlatSame(a: seq<seq<Reply>>, b: seq<seq<Reply>>, i: nat)
    requires |a| == |b| && forall j :: i <= j < |a| ==> a[j] == b[j]
    ensures Flat(a, i) == Flat(b, i)
    decreases |a| - i
  {
    if i < |a| { FlatSame(a, b, i + 1); }
  }

  lemma SameTwice(s: Server, mid: Server, end: Server, i: nat)
    requires SamePipe(s, mid, i) && SamePipe(mid, end, i)
    ensures SamePipe(s, end, i)
  {
  }

  lemma LeftLater(s: Server, mid: Server, end: Server, pid: Pid, i: nat, replies: seq<Reply>)
    requires SamePipe(s, mid, i) && PipeLeft(mid, end, pid, i, replies)
    ensures PipeLeft(s, end, pid, i, replies)
  {
  }

  lemma LeftNow(s: Server, mid: Server, end: Server, pid: Pid, i: nat, replies: seq<Reply>)
    requires PipeLeft(s, mid, pid, i, replies) && SamePipe(mid, end, i)
    ensures PipeLeft(s, end, pid, i, replies)
  {
  }

  /** The process has left the pipes from number `id` on, and no others. */
  ghost predicate LeftFrom(s: Server, s': Server, pid: Pid, id: nat, parts: seq<seq<Reply>>)
  {
    && (forall i :: 0 <= i < id ==> SamePipe(s, s', i))
    && forall i :: id <= i < |parts| ==> PipeLeft(s, s', pid, i, parts[i])
  }

  /** The same as one fact. */
  ghost predicate Gone(s: Server, s': Server, pid: Pid, id: nat, parts: seq<seq<Reply>>)
  {
    var gone := LeftFrom(s, s', pid, id, parts);
    gone
  }

  lemma GoneMore(s: Server, mid: Server, end: Server, pid: Pid, id: nat, first: seq<Reply>, rest: seq<seq<Reply>>,
      parts: seq<seq<Reply>>)
    requires id < |rest| && PipeLeft(s, mid, pid, id, first) && (forall i: nat :: i != id ==> SamePipe(s, mid, i))
    requires Gone(mid, end, pid, id + 1, rest) && parts == rest[id := first]
    ensures Gone(s, end, pid, id, parts) && Flat(parts, id) == first + Flat(rest, id + 1)
  {
    FlatSame(parts, rest, id + 1);
    forall i | 0 <= i < id ensures SamePipe(s, end, i) { SameTwice(s, mid, end, i); }
    forall i | id <= i < |parts| ensures PipeLeft(s, end, pid, i, parts[i]) {
      if i > id { LeftLater(s, mid, end, pid, i, rest[i]); } else { LeftNow(s, mid, end, pid, i, first); }
    }
  }

  lemma {:induction false} LeaveFromReleases(s: Server, pid: Pid, id: nat) returns (parts: seq<seq<Reply>>)
    requires Inv(s) && id <= s.nextId
    ensures
      var r := LeaveFrom(s, pid, id);
      |parts| == s.nextId && r.replies == Flat(parts, id) && Gone(s, r.server, pid, id, parts)
    decreases s.nextId - id
  {
    parts := seq(s.nextId, i => []);
    if id < s.nextId {
      var a := Leave(s, pid, id);
      LeaveReleases(s, pid, id);
      var rest := LeaveFromReleases(a.server, pid, id + 1);
      parts := rest[id := a.replies];
      GoneMore(s, a.server, LeaveFrom(a.server, pid, id + 1).server, pid, id, a.replies, rest, parts);
    }
  }

  /**
   A deleted process leaves both ends of every pipe, and a pipe nobody holds is gone; pipe by pipe, in the
   order of their ids, it answers what only it could have served.
   */
  lemma DeleteReleases(s: Server, pid: Pid) returns (parts: seq<seq<Reply>>)
    requires Inv(s)
    ensures
      var r := Next(s, DeleteProcess(pid));
      && |parts| == s.nextId && r.replies == Flat(parts, 1)
      && forall i :: 1 <= i < s.nextId ==> PipeLeft(s, r.server, pid, i, parts[i])
  {
    parts := LeaveFromReleases(s, pid, 1);
  }

  // ----- spawn -----

  /** `pid` is given this end of pipe `id`. */
  ghost predicate Gives(specs: seq<PipeSpec>, id: nat, writer: bool)
  {
    exists i :: 0 <= i < |specs| && specs[i].PipeSpec? && specs[i].id == id && specs[i].isWriter == writer
  }

  lemma {:induction false} JoinsGiven(s: Server, pid: Pid, specs: seq<PipeSpec>)
    ensures
      var s' := JoinAll(s, pid, specs);
      && s'.pipes.Keys == s.pipes.Keys && s'.nextId == s.nextId
      && forall id :: id in s.pipes ==>
           && s'.pipes[id].readers == s.pipes[id].readers + (if Gives(specs, id, false) then {pid} else {})
           && s'.pipes[id].writers == s.pipes[id].writers + (if Gives(specs, id, true) then {pid} else {})
           && s'.pipes[id].readsPending == s.pipes[id].readsPending
           && s'.pipes[id].writesPending == s.pipes[id].writesPending
    decreases |specs|
  {
    if specs != [] {
      JoinsGiven(Join(s, pid, specs[0]), pid, specs[1..]);
      forall id, writer ensures Gives(specs, id, writer) <==>
        Gives(specs[1..], id, writer) || (specs[0].PipeSpec? && specs[0].id == id && specs[0].isWriter == writer)
      {
        GivesMore(specs, id, writer);
      }
    }
  }

  lemma GivesMore(specs: seq<PipeSpec>, id: nat, writer: bool)
    requires specs != []
    ensures Gives(specs, id, writer) <==>
      Gives(specs[1..], id, writer) || (specs[0].PipeSpec? && specs[0].id == id && specs[0].isWriter == writer)
  {
    if Gives(specs[1..], id, writer) {
      var i :| 0 <= i < |specs[1..]| && specs[1..][i].PipeSpec? && specs[1..][i].id == id
        && specs[1..][i].isWriter == writer;
      assert specs[i + 1] == specs[1..][i];
    }
    if Gives(specs, id, writer) {
      var i :| 0 <= i < |specs| && specs[i].PipeSpec? && specs[i].id == id && specs[i].isWriter == writer;
      if i > 0 { assert specs[1..][i - 1] == specs[i]; }
    }
  }

  /** A spawned process joins exactly the ends its setup names, of pipes there are, and nobody is answered. */
  lemma SpawnJoins(s: Server, pid: Pid, specs: seq<PipeSpec>)
    requires Inv(s)
    ensures
      var r := Next(s, AddPipes(pid, specs));
      && r.replies == [] && r.server.pipes.Keys == s.pipes.Keys
      && forall id :: id in s.pipes ==>
           && r.server.pipes[id].readers == s.pipes[id].readers + (if Gives(specs, id, false) then {pid} else {})
           && r.server.pipes[id].writers == s.pipes[id].writers + (if Gives(specs, id, true) then {pid} else {})
           && r.server.pipes[id].readsPending == s.pipes[id].readsPending
           && r.server.pipes[id].writesPending == s.pipes[id].writesPending
  {
    JoinsGiven(s, pid, specs);
  }
}
