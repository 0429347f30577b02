/** The handlers of pipeserver.js over the server's fields, each equal to its step of `Pipes.Next`. */
module PipeServers {
  import opened Basics
  import opened Octets
  import opened Pipes

  class PipeServer {
    var anonymousPipeId: nat
    var anonymousPipes: map<nat, Pipe>
    ghost var streams: map<nat, Stream>

    ghost function State(): Server
      reads this
    {
      Server(anonymousPipeId, anonymousPipes, streams)
    }

    ghost predicate Valid()
      reads this
    {
      Inv(State())
    }

    constructor ()
      ensures State() == START && Valid()
    {
      anonymousPipeId := 1;
      anonymousPipes := map[];
      streams := map[];
    }

    /** handleMessageAPipe */
    method APipe(src: Pid) returns (replies: seq<Reply>)
      requires Valid()
      modifies this
      ensures Valid() && Result(State(), replies) == Next(old(State()), Event.APipe(src))
    {
      NextKeeps(State(), Event.APipe(src));
      var id := anonymousPipeId;
      anonymousPipeId := anonymousPipeId + 1;
      anonymousPipes := anonymousPipes[id := Pipe({src}, {src}, [], [])];
      streams := streams[id := Stream([], [], false)];
      replies := [Created(src, id)];
    }

    /** handleMessageAPipeWrite */
    method Write(src: Pid, id: nat, data: seq<Octet>) returns (replies: seq<Reply>)
      requires Valid()
      modifies this
      ensures Valid() && Result(State(), replies) == Next(old(State()), Event.Write(src, id, data))
    {
      NextKeeps(State(), Event.Write(src, id, data));
      if !(id in anonymousPipes && src in anonymousPipes[id].writers) {
        return [Count(src, EPIPE)];
      }
      var pipe := anonymousPipes[id];
      ghost var o := WritePipe(pipe, src, data);
      ghost var served := Serve(pipe.readsPending, data);
      var rest := data;
      replies := [];
      while |rest| > 0 && |pipe.readsPending| > 0
        invariant pipe == anonymousPipes[id].(readsPending := pipe.readsPending)
        invariant
          var s := Serve(pipe.readsPending, rest);
          s.left == served.left && s.data == served.data && replies + s.replies == served.replies
        decreases |pipe.readsPending|
      {
        var item := pipe.readsPending[0];
        pipe := pipe.(readsPending := pipe.readsPending[1..]);
        var part := rest[..Min(item.count, |rest|)];
        replies := replies + [Data(item.pid, part)];
        rest := rest[|part|..];
      }
      assert replies + [] == replies;
      if |rest| == 0 {
        replies := replies + [Count(src, |data|)];
      } else if pipe.readers != {} {
        replies := replies + [Count(src, |data|)];
        pipe := pipe.(writesPending := pipe.writesPending + [WriteRequest(|data|, rest, src, true)]);
      } else {
        replies := replies + [Count(src, EPIPE)];
      }
      assert Outcome(pipe, replies) == o;
      Update(id, pipe, data, Bytes(replies));
    }

    /** The pipe's new state; a pipe no process holds is removed. */
    method Update(id: nat, pipe: Pipe, ghost written: seq<Octet>, ghost delivered: seq<Octet>)
      requires id in anonymousPipes && id in streams
      modifies this
      ensures State() == Store(old(State()), id, pipe, written, delivered)
    {
      var h := streams[id];
      if pipe.readers == {} && pipe.writers == {} {
        anonymousPipes := anonymousPipes - {id};
      } else {
        anonymousPipes := anonymousPipes[id := pipe];
      }
      streams := streams[id := Stream(h.written + written, h.delivered + delivered, h.deaf || pipe.readers == {})];
    }

    /** handleMessageAPipeRead */
    method Read(src: Pid, id: nat, count: nat, nonblock: bool) returns (replies: seq<Reply>)
      requires Valid()
      modifies this
      ensures Valid() && Result(State(), replies) == Next(old(State()), Event.Read(src, id, count, nonblock))
    {
      NextKeeps(State(), Event.Read(src, id, count, nonblock));
      if count == 0 || !(id in anonymousPipes && src in anonymousPipes[id].readers) {
        return [Data(src, [])];
      }
      var pipe := anonymousPipes[id];
      ghost var o := ReadPipe(pipe, src, count, nonblock);
      replies := [];
      if |pipe.writesPending| > 0 {
        var item := pipe.writesPending[0];
        pipe := pipe.(writesPending := pipe.writesPending[1..]);
        if |item.data| > count {
          var part := item.data[..count];
          replies := [Data(src, part)];
          item := item.(data := item.data[|part|..]);
          pipe := pipe.(writesPending := [item] + pipe.writesPending);
        } else {
          replies := [Data(src, item.data)];
          if !item.replied { replies := replies + [Count(item.pid, item.size)]; }
        }
      } else if pipe.writers != {} {
        if nonblock {
          replies := [Again(src)];
        } else {
          pipe := pipe.(readsPending := pipe.readsPending + [ReadRequest(count, src)]);
        }
      } else {
        replies := [Data(src, [])];
      }
      assert Outcome(pipe, replies) == o;
      Update(id, pipe, [], Bytes(replies));
    }

    /** closeAPipe */
    method CloseAPipe(pid: Pid, id: nat, writer: bool) returns (replies: seq<Reply>)
      requires Valid()
      modifies this
      ensures Valid() && Result(State(), replies) == CloseEnd(old(State()), pid, id, writer)
    {
      CloseEndKeeps(State(), pid, id, writer);
      replies := [];
      if id !in anonymousPipes { return; }
      var pipe := anonymousPipes[id];
      if writer {
        pipe := pipe.(writers := pipe.writers - {pid});
      } else {
        pipe := pipe.(readers := pipe.readers - {pid});
      }
      if pipe.writers == {} && pipe.readers == {} {
      } else if pipe.writers == {} {
        replies := AnswerReads(pipe.readsPending);
        pipe := pipe.(readsPending := []);
      } else if pipe.readers == {} {
        replies := AnswerWrites(pipe.writesPending);
        pipe := pipe.(writesPending := []);
      }
      Update(id, pipe, [], []);
    }

    /** handleMessageAPipeClose */
    method Close(src: Pid, id: nat, writer: bool) returns (replies: seq<Reply>)
      requires Valid()
      modifies this
      ensures Valid() && Result(State(), replies) == Next(old(State()), Event.Close(src, id, writer))
    {
      replies := CloseAPipe(src, id, writer);
      replies := replies + [Closed(src)];
    }

    /** addProcessPipes: whether descriptor 0 is routed to a pipe is returned. */
    method AddProcessPipes(pid: Pid, specs: seq<PipeSpec>) returns (routeStdin: bool)
      requires Valid()
      modifies this
      ensures Valid() && State() == Next(old(State()), AddPipes(pid, specs)).server
      ensures routeStdin <==> exists k :: 0 <= k < |specs| && specs[k].PipeSpec? && specs[k].fd == 0
    {
      NextKeeps(State(), AddPipes(pid, specs));
      routeStdin := false;
      var fdCount := 0;
      while fdCount < |specs|
        invariant 0 <= fdCount <= |specs| && streams == old(streams) && anonymousPipeId == old(anonymousPipeId)
        invariant JoinAll(State(), pid, specs[fdCount..]) == JoinAll(old(State()), pid, specs)
        invariant routeStdin <==> exists k :: 0 <= k < fdCount && specs[k].PipeSpec? && specs[k].fd == 0
      {
        var spec := specs[fdCount];
        assert specs[fdCount..][1..] == specs[fdCount + 1..];
        if spec.PipeSpec? {
          if spec.fd == 0 { routeStdin := true; }
          if spec.id in anonymousPipes {
            var pipe := anonymousPipes[spec.id];
            if spec.isWriter {
              pipe := pipe.(writers := pipe.writers + {pid});
            } else {
              pipe := pipe.(readers := pipe.readers + {pid});
            }
            anonymousPipes := anonymousPipes[spec.id := pipe];
          }
        }
        fdCount := fdCount + 1;
      }
    }

    /** deleteProcess: a dying process leaves its pipes, in the order of their ids. */
    method Delete(pid: Pid) returns (replies: seq<Reply>)
      requires Valid()
      modifies this
      ensures Valid() && Result(State(), replies) == Next(old(State()), DeleteProcess(pid))
    {
      replies := [];
      var pipeId: nat := 1;
      while pipeId < anonymousPipeId
        invariant Valid() && anonymousPipeId == old(anonymousPipeId) && pipeId >= 1
        invariant
          var done, rest := LeaveFrom(old(State()), pid, 1), LeaveFrom(State(), pid, pipeId);
          rest.server == done.server && replies + rest.replies == done.replies
        decreases anonymousPipeId - pipeId
      {
        ghost var s, before := State(), replies;
        var left: seq<Reply>, left': seq<Reply> := [], [];
        if pipeId in anonymousPipes {
          var pipe := anonymousPipes[pipeId];
          if pid in pipe.readers { left := CloseAPipe(pid, pipeId, false); }
          if pid in pipe.writers { left' := CloseAPipe(pid, pipeId, true); }
        }
        assert Leave(s, pid, pipeId) == Result(State(), left + left');
        replies := replies + (left + left');
        Assoc(before, left + left', LeaveFrom(State(), pid, pipeId + 1).replies);
        pipeId := pipeId + 1;
      }
    }
  }

  /** An empty read for every blocked reader, in order. */
  method AnswerReads(pending: seq<ReadRequest>) returns (replies: seq<Reply>)
    ensures replies == EndReads(pending)
  {
    replies := [];
    for i := 0 to |pending|
      invariant replies + EndReads(pending[i..]) == EndReads(pending)
    {
      assert pending[i..][1..] == pending[i + 1..];
      replies := replies + [Data(pending[i].pid, [])];
    }
  }

  /** A failed write for every queued writer, in order. */
  method AnswerWrites(pending: seq<WriteRequest>) returns (replies: seq<Reply>)
    ensures replies == FailWrites(pending)
  {
    replies := [];
    for i := 0 to |pending|
      invariant replies + FailWrites(pending[i..]) == FailWrites(pending)
    {
      assert pending[i..][1..] == pending[i + 1..];
      replies := replies + [Count(pending[i].pid, EPIPE)];
    }
  }
}
