/**
 A run of calls on one controller, in order, as the bus sees it: the trace of
 addressed writes the calls hand to the transport.
 */
module Session {
  import opened Max517Dac

  /** Issues `requests` one after another on `c` and records each write. The trace has
      one write per call, in call order, each the write that call produces, and every
      write goes to the address `c` was constructed with. */
  method Transmit(c: Controller, requests: seq<Request>) returns (trace: seq<Transaction>)
    ensures |trace| == |requests|
    ensures forall i :: 0 <= i < |requests| ==> trace[i] == Issue(c, requests[i])
    ensures forall t :: t in trace ==> t.address == c.address && 1 <= |t.bytes| <= 2
  {
    trace := [];
    var i := 0;
    while i < |requests|
      invariant 0 <= i <= |requests|
      invariant |trace| == i
      invariant forall j :: 0 <= j < i ==> trace[j] == Issue(c, requests[j])
    {
      trace := trace + [Issue(c, requests[i])];
      i := i + 1;
    }
  }

  /** A default controller setting the output to 200, powering down, then powering up:
      three writes to 0x2C, of [0x00, 200], [0x08] and [0x00]. */
  method SetSleepWake() returns (trace: seq<Transaction>)
    ensures trace == [Transaction(0x2C, [0x00, 200]), Transaction(0x2C, [0x08]), Transaction(0x2C, [0x00])]
  {
    trace := Transmit(Controller(), [Output(200, false), Sleep, Wake]);
  }
}
