/** The FIFO between the listening and the processing thread. */
module MessageQueues {
  import opened CppString

  class MessageQueue<M> {
    var msgQueue: seq<M>

    constructor ()
      ensures msgQueue == []
    {
      msgQueue := [];
    }

    method Push(entry: M)
      modifies this
      ensures msgQueue == old(msgQueue) + [entry]
    {
      msgQueue := msgQueue + [entry];
    }

    /** None is the return code -1. */
    method Pop() returns (output: Option<M>)
      modifies this
      ensures old(msgQueue) == [] ==> output == None && msgQueue == []
      ensures old(msgQueue) != [] ==> output == Some(old(msgQueue)[0]) && msgQueue == old(msgQueue)[1..]
    {
      if |msgQueue| == 0 {
        return None;
      }
      output := Some(msgQueue[0]);
      msgQueue := msgQueue[1..];
    }

    method Size() returns (n: nat)
      ensures n == |msgQueue|
    {
      n := |msgQueue|;
    }

    method Clear()
      modifies this
      ensures msgQueue == []
    {
      while |msgQueue| > 0
        decreases |msgQueue|
      {
        msgQueue := msgQueue[1..];
      }
    }
  }
}
