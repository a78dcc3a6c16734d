/** The router and the generator as objects: their threads drive signals and write FIFOs in
    place. Every turn refines the matching step of `Handshake`. */
module Endpoints {
  import opened Sequences
  import opened DeltaFifo
  import opened Handshake

  /** sc_signal: a write shows only after the update phase. */
  class SignalChannel<T(==)> {
    var now: T
    var next: T

    ghost function View(): Signal<T>
      reads this
    {
      Signal(now, next)
    }

    constructor (x: T)
      ensures View() == Signal(x, x)
    {
      now, next := x, x;
    }

    method Write(x: T)
      modifies this`next
      ensures View() == old(View()).(next := x)
    {
      next := x;
    }

    /** The update phase: the result says whether a change is notified. */
    method Update() returns (changed: bool)
      modifies this`now
      ensures View() == Signal(old(next), old(next)) && changed == (old(now) != old(next))
    {
      changed := now != next;
      if changed {
        now := next;
      }
    }
  }

  class Router {
    const input: SignalChannel<Packet>
    const acknoledge: SignalChannel<bool>
    const fifos: seq<ScFifo<Packet>>
    var thread: Receiver

    constructor (input: SignalChannel<Packet>, acknoledge: SignalChannel<bool>, fifos: seq<ScFifo<Packet>>)
      modifies acknoledge`next
      ensures this.input == input && this.acknoledge == acknoledge && this.fifos == fifos
      ensures thread == AwaitActive && acknoledge.View() == old(acknoledge.View()).(next := false)
    {
      this.input, this.acknoledge, this.fifos := input, acknoledge, fifos;
      thread := AwaitActive;
      new;
      acknoledge.Write(false);
    }

    /** The object is the router end of link l. */
    ghost predicate Represents(l: Link)
      reads this, input, acknoledge
    {
      l.receiver == thread && l.wire == input.View() && l.ack == acknoledge.View()
    }

    /** The FIFO that this turn would write. */
    ghost function Target(l: Link): ScFifo<Packet>
      requires Offered(l).Some? && Offered(l).value.address < |fifos|
    {
      fifos[Offered(l).value.address]
    }

    /** The thread's turn at a posedge, read_packet included: nothing to do; wait for space; or
        write the packet to the FIFO of its address and acknowledge. */
    method Posedge(ghost l: Link) returns (ghost space: bool)
      requires Represents(l)
      requires Offered(l).Some? ==> Offered(l).value.address < |fifos| && Target(l).Valid()
      modifies this`thread, acknoledge`next
      modifies if Offered(l).Some? then {Target(l) as object, Target(l).buf} else {}
      ensures Represents(Receive(l, space))
      ensures Offered(l).Some? ==>
                && space == (old(Target(l).View()).NumFree() > 0) && Target(l).Valid()
                && Target(l).View() == if space then old(Target(l).View()).Put(Offered(l).value)
                                       else old(Target(l).View())
    {
      space := false;
      if thread.AwaitClock? {
        space := ReadPacket(input.now);
      } else if thread.AwaitSpace? {
        space := ReadPacket(thread.held);
      }
    }

    /** One pass of read_packet's loop for packet p, and the write if there is space. */
    method ReadPacket(p: Packet) returns (space: bool)
      requires p.address < |fifos| && fifos[p.address].Valid()
      modifies this`thread, acknoledge`next, fifos[p.address], fifos[p.address].buf
      ensures var f := fifos[p.address];
              && space == (old(f.View()).NumFree() > 0) && f.Valid()
              && f.View() == if space then old(f.View()).Put(p) else old(f.View())
      ensures thread == if space then AwaitInactive else AwaitSpace(p)
      ensures acknoledge.View() == if space then old(acknoledge.View()).(next := true)
                                   else old(acknoledge.View())
    {
      var free := fifos[p.address].NumFree();
      space := free != 0;
      if !space {
        thread := AwaitSpace(p);
        return;
      }
      var written := fifos[p.address].NbWrite(p);
      acknoledge.Write(true);
      thread := AwaitInactive;
    }

    /** The thread's turn at a negedge. */
    method Negedge(ghost l: Link)
      requires Represents(l)
      modifies this`thread, acknoledge`next
      ensures Represents(DropAck(l))
      ensures acknoledge.next == (!old(thread).AwaitNegedge? && old(acknoledge.next))
    {
      if thread.AwaitNegedge? {
        acknoledge.Write(false);
        thread := AwaitActive;
      }
    }
  }

  class Generator {
    const output: SignalChannel<Packet>
    const activated: SignalChannel<bool>
    var thread: Sender

    constructor (output: SignalChannel<Packet>, activated: SignalChannel<bool>)
      modifies output`next, activated`next
      ensures this.output == output && this.activated == activated && thread == Idle
      ensures activated.View() == old(activated.View()).(next := false)
      ensures output.View() == old(output.View()).(next := Packet(0, 0))
    {
      this.output, this.activated, thread := output, activated, Idle;
      new;
      activated.Write(false);
      output.Write(Packet(0, 0));
    }

    ghost predicate Represents(l: Link)
      reads this, output, activated
    {
      l.sender == thread && l.wire == output.View() && l.active == activated.View()
    }

    /** The thread's turn at a posedge: `emit` is the packet that `generate` decided to send. */
    method Posedge(emit: Option<Packet>, ghost l: Link)
      requires Represents(l)
      modifies this`thread, output`next, activated`next
      ensures Represents(Send(l, emit))
      ensures output.next == if old(thread).Idle? && emit.Some? then emit.value else old(output.next)
      ensures activated.next == if old(thread).AwaitPosedge? then false else old(activated.next)
    {
      if thread.Idle? {
        if emit.Some? {
          output.Write(emit.value);
          thread := Prepared;
        }
      } else if thread.AwaitPosedge? {
        activated.Write(false);
        thread := AwaitRelease;
      }
    }

    /** The thread's turn at a negedge. */
    method Negedge(ghost l: Link)
      requires Represents(l)
      modifies this`thread, activated`next
      ensures Represents(RaiseActive(l))
      ensures activated.next == (old(thread).Prepared? || old(activated.next))
    {
      if thread.Prepared? {
        activated.Write(true);
        thread := AwaitAck;
      }
    }
  }
}
