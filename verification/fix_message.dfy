/**
 * Command classification of `FixMessage` (src/shared/FixMessage/FixMessage.cpp).
 *
 * Each operation builds an hffix `message_reader` over the packet's bytes.  The reader
 * is seen here only through what these operations ask of it: whether the bytes form a
 * complete, valid FIX message, the value of its MsgType field (tag 35), and whether
 * reading the remaining fields throws.
 */
module FixMessage {

  /** The view of an hffix `message_reader` that the classification depends on. */
  datatype MessageReader = MessageReader(valid: bool, msgType: string, fieldsReadable: bool)

  const MSG_TYPE_LOGON: string := "A"
  const MSG_TYPE_NEW_ORDER_SINGLE: string := "D"

  /** `GetCommand`: the message type of a valid message, and the empty string otherwise. */
  function GetCommand(reader: MessageReader): (command: string)
    ensures reader.valid ==> command == reader.msgType
    ensures !reader.valid ==> command == ""
  {
    if reader.valid then reader.msgType else ""
  }

  /** `IsValidCommand`: the message is valid and of type `command`. */
  function IsValidCommand(reader: MessageReader, command: string): (b: bool)
    ensures b <==> reader.valid && reader.msgType == command
  {
    reader.valid && command == reader.msgType
  }

  /**
   * A valid command is the one `GetCommand` reports; for a non-empty command the
   * converse holds as well.
   */
  lemma ValidCommandIsCommand(reader: MessageReader, command: string)
    ensures IsValidCommand(reader, command) ==> GetCommand(reader) == command
    ensures command != "" ==> (GetCommand(reader) == command ==> IsValidCommand(reader, command))
  {
  }

  /**
   * The converse fails for the empty command: an invalid message reports the empty
   * command without being a valid empty command.
   */
  lemma EmptyCommandIsNotValid()
    ensures var reader := MessageReader(false, "", true);
      GetCommand(reader) == "" && !IsValidCommand(reader, "")
  {
  }

  /**
   * `IsReadLogonMessage`: false for an invalid message, false for any type but Logon,
   * false when reading its fields throws, and true otherwise.
   */
  function IsReadLogonMessage(reader: MessageReader): (b: bool)
    ensures b ==> IsValidCommand(reader, MSG_TYPE_LOGON)
    ensures IsValidCommand(reader, MSG_TYPE_LOGON) ==> (b <==> reader.fieldsReadable)
  {
    if !reader.valid then false
    else if reader.msgType != MSG_TYPE_LOGON then false
    else reader.fieldsReadable
  }

  /**
   * `IsReadNewOrderSingleMessage`: false for an invalid message, false for any type but
   * New Order Single, false when reading its fields throws, and true otherwise.
   */
  function IsReadNewOrderSingleMessage(reader: MessageReader): (b: bool)
    ensures b ==> IsValidCommand(reader, MSG_TYPE_NEW_ORDER_SINGLE)
    ensures IsValidCommand(reader, MSG_TYPE_NEW_ORDER_SINGLE) ==> (b <==> reader.fieldsReadable)
  {
    if !reader.valid then false
    else if reader.msgType != MSG_TYPE_NEW_ORDER_SINGLE then false
    else reader.fieldsReadable
  }

  /** No message is read both as a Logon and as a New Order Single. */
  lemma LogonAndOrderExclusive(reader: MessageReader)
    ensures !(IsReadLogonMessage(reader) && IsReadNewOrderSingleMessage(reader))
  {
  }

  /** Either read succeeds only on a message whose command `GetCommand` reports as that type. */
  lemma ReadMessagesHaveTheirCommand(reader: MessageReader)
    ensures IsReadLogonMessage(reader) ==> GetCommand(reader) == MSG_TYPE_LOGON
    ensures IsReadNewOrderSingleMessage(reader) ==> GetCommand(reader) == MSG_TYPE_NEW_ORDER_SINGLE
  {
  }
}
