/** The remote phone service as the activity sees it. Its implementation (the
    modem's service-mode protocol behind Binder) is not part of this model: each
    call is answered by an oracle, which is how the activity experiences it. */
module Remote {
  import opened JavaText

  /** `SM_TYPE_TEST_MANUAL`, the service-mode type the activity enters and exits. */
  const TestManual: CodeUnit := 1

  /** `SM_TYPE_SUB_ENTER`, the sub-type used when entering service mode. */
  const SubEnter: CodeUnit := 0

  /** What one remote call did: it returned (with a boolean result, ignored for
      calls declared `void`) or it threw `RemoteException`. */
  datatype Reply = Returned(value: bool) | Thrown

  /** The answers of the service to the calls of one operation: `replies(i)`
      answers the operation's `i`-th call, counting from 0. */
  type Replies = nat -> Reply

  /** A call the activity makes on the service, with its arguments. */
  datatype RemoteCall =
    | RegisterEventHandler
    | UnregisterEventHandler
    | EnterServiceMode(modeType: CodeUnit, subType: CodeUnit)
    | ExitServiceMode(modeType: CodeUnit)
    | SendServiceKeyCode(key: CodeUnit)

  /** A boolean call counts as successful when it returned `true`; a thrown
      `RemoteException` is caught and counts as `false`. */
  predicate Succeeded(r: Reply) {
    r == Returned(true)
  }

  /** The key-code calls that send `keys`, in order. */
  function KeyCalls(keys: JString): (calls: seq<RemoteCall>)
    ensures |calls| == |keys|
    ensures forall i | 0 <= i < |keys| :: calls[i] == SendServiceKeyCode(keys[i])
  {
    seq(|keys|, i requires 0 <= i < |keys| => SendServiceKeyCode(keys[i]))
  }
}
