/** TcpConnection's handlers over its two buffers, against the send-path machine. */
module TcpConnections {
  import opened Bytes
  import Buffers
  import opened Connections

  class TcpConnection {
    var phase: Phase
    var writing: bool
    var shut: bool
    const output: Buffers.Buffer
    const input: Buffers.Buffer
    var tasks: seq<Task>
    ghost var wire: bytes
    ghost var kept: bytes
    ghost var lost: nat
    ghost var posted: seq<bytes>
    ghost var ran: nat
    ghost var downs: nat

    ghost predicate Valid()
      reads this, output, input
    {
      output.Valid() && input.Valid() && output != input && output.store != input.store
    }

    ghost function State(): Conn
      requires Valid()
      reads this, output, output.store, input, input.store
    {
      Conn(phase, writing, shut, output.Contents(), input.Contents(), wire, kept, lost, tasks, posted, ran, downs)
    }

    constructor ()
      ensures Valid() && State() == FRESH && fresh(output) && fresh(output.store) && fresh(input) && fresh(input.store)
    {
      phase, writing, shut, tasks := Connecting, false, false, [];
      wire, kept, lost, posted, ran, downs := [], [], 0, [], 0, 0;
      output := new Buffers.Buffer(1024);
      input := new Buffers.Buffer(1024);
    }

    /** The fast path; `rest` is what the kernel did not take. */
    method WriteDirect(message: bytes, o: Outcome) returns (rest: bytes, fault: bool)
      requires Valid() && Written(o) <= |message|
      modifies `wire
      ensures fault == o.Fatal? && (fault ==> wire == old(wire))
      ensures !fault ==> rest == message[Written(o)..] && wire == old(wire) + message[..Written(o)]
    {
      rest, fault := message, false;
      match o
      case Took(n) =>
        wire := wire + message[..n];
        rest := message[n..];
      case Refused =>
        assert message[..0] == [] && wire + [] == wire;
      case Fatal => fault := true;
    }

    /** Buffer what is left and let writability drive it. */
    method BufferRest(rest: bytes)
      requires Valid()
      modifies this`writing, output, output.store
      ensures Valid() && (output.store == old(output.store) || fresh(output.store))
      ensures State() == Buffered(old(State()), rest)
    {
      if rest != [] {
        output.Append(rest);
        if !writing {
          writing := true;
        }
      }
    }

    /** `o` is the outcome of the direct write, if there is one. */
    method SendInLoop(message: bytes, o: Outcome)
      requires Valid() && Written(o) <= |message|
      modifies this, output, output.store
      ensures Valid() && (output.store == old(output.store) || fresh(output.store))
      ensures State() == Connections.SendInLoop(old(State()), message, o)
    {
      if phase.Disconnected? {
        lost := lost + |message|;
        return;
      }
      var rest, fault := message, false;
      if !writing && output.ReadableBytes() == 0 {
        rest, fault := WriteDirect(message, o);
      }
      if fault {
        lost := lost + |message|;
      } else {
        kept := kept + message;
        BufferRest(rest);
      }
    }

    method ShutdownInLoop()
      requires Valid()
      modifies `shut
      ensures State() == Connections.ShutdownInLoop(old(State()))
    {
      if !writing {
        shut := true;
      }
    }

    method HandleWrite(o: Outcome)
      requires Valid() && Written(o) <= output.ReadableBytes()
      modifies `writing, `shut, `wire, output
      ensures Valid() && output.store == old(output.store)
      ensures State() == Connections.HandleWrite(old(State()), o)
    {
      if writing && Written(o) > 0 {
        var taken := output.WriteCore(Written(o));
        wire := wire + taken;
        assert taken == old(output.Contents())[..Written(o)] && output.Contents() == old(output.Contents())[Written(o)..];
        if output.ReadableBytes() == 0 {
          writing := false;
          if phase.Disconnecting? {
            ShutdownInLoop();
          }
        }
      }
    }

    method HandleClose()
      requires Valid() && Open(State())
      modifies `phase, `writing, `downs
      ensures State() == Connections.HandleClose(old(State()))
    {
      phase, writing, downs := Disconnected, false, downs + 1;
    }

    /** A read that returned bytes; readv gives at most the writable space and the stack buffer. */
    method HandleRead(chunk: bytes)
      requires Valid() && |chunk| <= input.ReadCapacity()
      modifies input, input.store
      ensures Valid() && (input.store == old(input.store) || fresh(input.store))
      ensures State() == old(State()).(input := old(State()).input + chunk)
    {
      input.ReadCore(chunk);
    }

    /** A read that returned 0. */
    method HandleEof()
      requires Valid() && Open(State())
      modifies `phase, `writing, `downs
      ensures State() == Connections.HandleEof(old(State()))
    {
      if output.ReadableBytes() > 0 {
        phase := Disconnecting;
      } else {
        HandleClose();
      }
    }

    method Send(message: bytes, inLoop: bool, o: Outcome)
      requires Valid() && Enabled(State(), Event.Send(message, o))
      modifies this, output, output.store
      ensures Valid() && (output.store == old(output.store) || fresh(output.store))
      ensures State() == Apply(old(State()), if inLoop then Event.Send(message, o) else PostSend(message))
    {
      if phase.Connected? {
        if inLoop {
          SendInLoop(message, o);
        } else {
          tasks := tasks + [SendTask(message)];
          posted := posted + [message];
        }
      }
    }

    method Shutdown(inLoop: bool)
      requires Valid()
      modifies `phase, `shut, `tasks
      ensures State() == Apply(old(State()), if inLoop then Event.Shutdown else PostShutdown)
    {
      if phase.Connected? {
        phase := Disconnecting;
        if inLoop {
          ShutdownInLoop();
        } else {
          tasks := tasks + [ShutdownTask];
        }
      }
    }

    method ForceClose()
      requires Valid()
      modifies `phase, `tasks
      ensures State() == Apply(old(State()), Event.ForceClose)
    {
      if phase.Connected? || phase.Disconnecting? {
        phase := Disconnecting;
        tasks := tasks + [CloseTask];
      }
    }

    method TakeTask() returns (task: Task)
      requires Valid() && tasks != []
      modifies `tasks, `ran
      ensures task == old(tasks[0])
      ensures State() == old(State()).(tasks := old(tasks)[1..], ran := old(ran) + if task.SendTask? then 1 else 0)
    {
      task := tasks[0];
      tasks := tasks[1..];
      if task.SendTask? {
        ran := ran + 1;
      }
    }

    /** One queued functor: sendInLoop, shutdownInLoop or forceCloseInLoop. */
    method RunTask(o: Outcome)
      requires Valid() && Enabled(State(), Event.RunTask(o))
      modifies this, output, output.store
      ensures Valid() && (output.store == old(output.store) || fresh(output.store))
      ensures State() == RunFirst(old(State()), o)
    {
      if tasks[0].SendTask? {
        RunSend(o);
      } else {
        RunControl(o);
      }
    }

    method RunSend(o: Outcome)
      requires Valid() && tasks != [] && tasks[0].SendTask? && Written(o) <= |tasks[0].message|
      modifies this, output, output.store
      ensures Valid() && (output.store == old(output.store) || fresh(output.store))
      ensures State() == RunFirst(old(State()), o)
    {
      var task := TakeTask();
      SendInLoop(task.message, o);
    }

    method RunControl(o: Outcome)
      requires Valid() && tasks != [] && !tasks[0].SendTask?
      modifies `tasks, `ran, `shut, `phase, `writing, `downs
      ensures State() == RunFirst(old(State()), o)
    {
      var task := TakeTask();
      if task.ShutdownTask? {
        ShutdownInLoop();
      } else {
        ForceCloseInLoop();
      }
    }

    method ForceCloseInLoop()
      requires Valid()
      modifies `phase, `writing, `downs
      ensures State() == if Open(old(State())) then Connections.HandleClose(old(State())) else old(State())
    {
      if phase.Connected? || phase.Disconnecting? {
        HandleClose();
      }
    }
  }
}
