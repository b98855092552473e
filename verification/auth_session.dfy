/**
 * The session plumbing of `AuthSession` (src/app/Server/AuthSession.cpp).
 *
 * The socket is reduced to what these operations touch: whether it is open, the queue
 * of outbound buffers, the read buffer, and the number of reads armed.  The bytes of
 * the read buffer are turned into a FIX message reader by a function the caller
 * supplies, standing for hffix.
 */
module Server {
  import opened FixMessage

  type byte = x: int | 0 <= x < 0x100

  /** What `ReadMessage` does with a message. */
  datatype ReadAction =
    | LogonRead        // the Logon branch: its fields are printed
    | NewOrderSingleRead  // the New Order Single branch: its fields are printed
    | Ignored          // a valid message of any other type
    | Aborted          // an invalid message: `ABORT` ends the process

  /**
   * `ReadMessage`: an invalid message aborts the process; a valid one takes the Logon
   * branch for type `A`, the New Order Single branch for type `D`, and nothing else for
   * any other type.  Errors reading the fields are caught and only logged.
   */
  function ReadMessage(reader: MessageReader): (action: ReadAction)
    ensures action == Aborted <==> !reader.valid
    ensures action == LogonRead <==> IsValidCommand(reader, MSG_TYPE_LOGON)
    ensures action == NewOrderSingleRead <==> IsValidCommand(reader, MSG_TYPE_NEW_ORDER_SINGLE)
    ensures action == Ignored <==> reader.valid && GetCommand(reader) != MSG_TYPE_LOGON && GetCommand(reader) != MSG_TYPE_NEW_ORDER_SINGLE
  {
    if reader.valid then
      if reader.msgType == MSG_TYPE_LOGON then LogonRead
      else if reader.msgType == MSG_TYPE_NEW_ORDER_SINGLE then NewOrderSingleRead
      else Ignored
    else Aborted
  }

  /**
   * The branch a message takes does not depend on whether its fields can be read:
   * a Logon whose fields throw still takes the Logon branch, where `IsReadLogonMessage`
   * would report failure.
   */
  lemma BranchIgnoresFieldErrors(reader: MessageReader)
    ensures ReadMessage(reader) == ReadMessage(reader.(fieldsReadable := true))
    ensures IsReadLogonMessage(reader) ==> ReadMessage(reader) == LogonRead
    ensures IsReadNewOrderSingleMessage(reader) ==> ReadMessage(reader) == NewOrderSingleRead
  {
  }

  /**
   * The outbound queue after `SendPacket`: one more buffer holding the packet's bytes,
   * at the end, when the socket is open and the packet is not empty; the same queue
   * otherwise.
   */
  function Enqueue(isOpen: bool, queue: seq<seq<byte>>, packet: seq<byte>): (q: seq<seq<byte>>)
    ensures |q| == if isOpen && packet != [] then |queue| + 1 else |queue|
    ensures q[..|queue|] == queue
    ensures isOpen && packet != [] ==> q[|queue|] == packet
  {
    if !isOpen then queue
    else if packet == [] then queue
    else queue + [packet]
  }

  /** Sending the packets one by one queues exactly the non-empty ones, in order. */
  function NonEmptyPackets(packets: seq<seq<byte>>): seq<seq<byte>>
    decreases |packets|
  {
    if packets == [] then []
    else NonEmptyPackets(packets[..|packets| - 1]) + (if packets[|packets| - 1] == [] then [] else [packets[|packets| - 1]])
  }

  function EnqueueAll(isOpen: bool, queue: seq<seq<byte>>, packets: seq<seq<byte>>): seq<seq<byte>>
    decreases |packets|
  {
    if packets == [] then queue
    else Enqueue(isOpen, EnqueueAll(isOpen, queue, packets[..|packets| - 1]), packets[|packets| - 1])
  }

  /** On an open socket the queue grows by the non-empty packets, in the order sent; on a closed one it does not grow. */
  lemma {:induction false} EnqueueAllInOrder(isOpen: bool, queue: seq<seq<byte>>, packets: seq<seq<byte>>)
    ensures EnqueueAll(isOpen, queue, packets) == if isOpen then queue + NonEmptyPackets(packets) else queue
    decreases |packets|
  {
    if packets != [] {
      var init := packets[..|packets| - 1];
      var last := packets[|packets| - 1];
      EnqueueAllInOrder(isOpen, queue, init);
      if isOpen && last != [] {
        assert queue + NonEmptyPackets(init) + [last] == queue + (NonEmptyPackets(init) + [last]);
      } else if isOpen {
        assert NonEmptyPackets(init) + [] == NonEmptyPackets(init);
      }
    }
  }

  class AuthSession {
    var isOpen: bool
    /** The buffers `QueuePacket` has queued for writing, oldest first. */
    var sendQueue: seq<seq<byte>>
    /** The bytes received and not yet processed. */
    var readBuffer: seq<byte>
    /** How many `AsyncRead` calls have been issued. */
    var readsArmed: nat

    constructor(isOpen: bool)
      ensures this.isOpen == isOpen && sendQueue == [] && readBuffer == [] && readsArmed == 0
    {
      this.isOpen := isOpen;
      sendQueue := [];
      readBuffer := [];
      readsArmed := 0;
    }

    /** `Start`: arms the first read. */
    method Start()
      modifies this
      ensures readsArmed == old(readsArmed) + 1
      ensures isOpen == old(isOpen) && sendQueue == old(sendQueue) && readBuffer == old(readBuffer)
    {
      readsArmed := readsArmed + 1;
    }

    /** `SendPacket`: refused on a closed socket and for an empty packet; queued otherwise. */
    method SendPacket(packet: seq<byte>)
      modifies this
      ensures sendQueue == Enqueue(old(isOpen), old(sendQueue), packet)
      ensures isOpen == old(isOpen) && readBuffer == old(readBuffer) && readsArmed == old(readsArmed)
    {
      if !isOpen {
        return;
      }
      if packet == [] {
        return;
      }
      var buffer := packet;
      sendQueue := sendQueue + [buffer];
    }

    /**
     * `ReadHandler`: hands the read buffer to `ReadMessage`, empties the buffer and arms
     * the next read.  When `ReadMessage` aborts, the process ends there.
     */
    method ReadHandler(parse: seq<byte> -> MessageReader) returns (action: ReadAction)
      modifies this
      ensures action == ReadMessage(parse(old(readBuffer)))
      ensures action != Aborted ==> readBuffer == [] && readsArmed == old(readsArmed) + 1
      ensures action == Aborted ==> readBuffer == old(readBuffer) && readsArmed == old(readsArmed)
      ensures isOpen == old(isOpen) && sendQueue == old(sendQueue)
    {
      var buffer := readBuffer;
      action := ReadMessage(parse(buffer));
      if action == Aborted {
        return;
      }
      readBuffer := [];
      readsArmed := readsArmed + 1;
    }
  }
}
