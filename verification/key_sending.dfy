/** `sendString`: the text typed into the input dialog is sent to the service
    one code unit at a time, stopping at the first failure; when every unit
    went through, the key `S` confirms the input. Any failure closes the screen. */
module KeySending {
  import opened JavaText
  import opened Remote

  /** The key that confirms a typed input. */
  const ConfirmKey: CodeUnit := Unit('S')

  /** What one `sendString` did: the keys passed to `sendServiceKeyCode`, in
      order, and whether it called `finish()`. */
  datatype SendOutcome = SendOutcome(keys: JString, finish: bool)

  /** The loop over the input from index `i` on, after every earlier unit went
      through: the keys it passes, and whether every one of its calls succeeded. */
  datatype LoopResult = LoopResult(keys: JString, allSucceeded: bool)

  /** Sends `input[i..]`, the unit at index `j` being the operation's `j`-th
      call; `SendEachStopsAtFirstFailure` states what it sends. */
  function SendEach(input: JString, replies: Replies, i: nat): (r: LoopResult)
    requires i < |input|
    ensures 0 < |r.keys| <= |input| - i
    decreases |input| - i
  {
    if !Succeeded(replies(i)) then LoopResult([input[i]], false)
    else if i + 1 == |input| then LoopResult([input[i]], true)
    else
      var rest := SendEach(input, replies, i + 1);
      LoopResult([input[i]] + rest.keys, rest.allSucceeded)
  }

  /** The loop sends the input in order and stops right after the first
      failed call; it reports success exactly when it reached the end of the
      input with every call successful. */
  lemma {:induction false} SendEachStopsAtFirstFailure(input: JString, replies: Replies, i: nat)
    requires i < |input|
    ensures var r := SendEach(input, replies, i);
      && r.keys == input[i..i + |r.keys|]
      && (forall j | i <= j < i + |r.keys| - 1 :: Succeeded(replies(j)))
      && (r.allSucceeded <==> i + |r.keys| == |input| && Succeeded(replies(|input| - 1)))
      && (!r.allSucceeded ==> !Succeeded(replies(i + |r.keys| - 1)))
    decreases |input| - i
  {
    if Succeeded(replies(i)) && i + 1 < |input| {
      SendEachStopsAtFirstFailure(input, replies, i + 1);
    }
  }

  /** `sendString(input)` with the service present or absent (`mPhoneService`
      null). An absent service counts as a failed send, as every other failure
      of the service does; the code as written throws instead (see
      `SendStringAsWritten`). */
  function SendString(hasService: bool, input: JString, replies: Replies): (r: SendOutcome)
    // The keys are a prefix of the input, or the whole input and then the confirm key.
    ensures (|r.keys| <= |input| && r.keys == input[..|r.keys|]) || r.keys == input + [ConfirmKey]
    // Every call but the last one succeeded: sending stops right after the first failure.
    ensures forall j | 0 <= j < |r.keys| - 1 :: Succeeded(replies(j))
    // Sending stopped early only because the last call failed.
    ensures 0 < |r.keys| <= |input| ==> !Succeeded(replies(|r.keys| - 1))
    // Nothing is sent for an empty input or without a service.
    ensures r.keys == [] <==> !hasService || |input| == 0
    // The confirm key goes out exactly when the input is non-empty and went through.
    ensures r.keys == input + [ConfirmKey] <==>
              hasService && |input| > 0 && forall j | 0 <= j < |input| :: Succeeded(replies(j))
    // The screen closes exactly when a send failed, the input was empty or there is no service.
    ensures r.finish <==>
              !hasService || |input| == 0 || exists j | 0 <= j < |r.keys| :: !Succeeded(replies(j))
  {
    if !hasService || |input| == 0 then SendOutcome([], true)
    else
      var sent := SendEach(input, replies, 0);
      SendEachStopsAtFirstFailure(input, replies, 0);
      if !sent.allSucceeded then SendOutcome(sent.keys, true)
      else
        assert sent.keys == input;
        SendOutcome(sent.keys + [ConfirmKey], !Succeeded(replies(|input|)))
  }

  /** An empty input sends nothing, not even the confirm key, and closes the
      screen: `successful` keeps its initial `false`. */
  lemma EmptyInputClosesScreen(replies: Replies)
    ensures SendString(true, [], replies) == SendOutcome([], true)
  {
  }

  /** `sendString` statement by statement, as written: `successful` starts out
      `false`, a failed or throwing send ends the loop, and a null service
      throws `NullPointerException` at the first send, which nothing catches.
      Whenever it does not throw it does what `SendString` says. */
  method SendStringAsWritten(hasService: bool, input: JString, replies: Replies)
    returns (nullPointer: bool, keys: JString, finish: bool)
    ensures nullPointer <==> !hasService && |input| > 0
    ensures nullPointer ==> keys == []
    ensures !nullPointer ==> SendOutcome(keys, finish) == SendString(hasService, input, replies)
  {
    var successful;
    finish := false;
    nullPointer, keys, successful := SendInputLoop(hasService, input, replies);
    if nullPointer {
      return;
    }
    if successful {
      keys := keys + [ConfirmKey];
      var reply := replies(|input|);
      successful := reply == Returned(true);
    }
    finish := !successful;
  }

  /** The `for` loop of `sendString`: `successful` holds the result of the
      last send, `false` before any send and after a thrown `RemoteException`. */
  method SendInputLoop(hasService: bool, input: JString, replies: Replies)
    returns (nullPointer: bool, keys: JString, successful: bool)
    ensures nullPointer <==> !hasService && |input| > 0
    ensures nullPointer ==> keys == []
    ensures !nullPointer && |input| == 0 ==> keys == [] && !successful
    ensures !nullPointer && |input| > 0 ==> SendEach(input, replies, 0) == LoopResult(keys, successful)
  {
    nullPointer, keys, successful := false, [], false;
    var i := 0;
    while i < |input|
      invariant 0 <= i <= |input|
      invariant hasService || i == 0
      invariant i == 0 ==> keys == []
      invariant successful <==> i > 0
      invariant i < |input| ==>
        SendEach(input, replies, 0)
          == LoopResult(keys + SendEach(input, replies, i).keys, SendEach(input, replies, i).allSucceeded)
      invariant i == |input| && i > 0 ==> SendEach(input, replies, 0) == LoopResult(keys, true)
    {
      if !hasService {
        nullPointer := true;
        return;
      }
      var reply := replies(i);
      SendEachStep(input, replies, i);
      if Succeeded(reply) && i + 1 < |input| {
        var rest := SendEach(input, replies, i + 1);
        assert keys + [input[i]] + rest.keys == keys + ([input[i]] + rest.keys);
      }
      keys := keys + [input[i]];
      if reply.Thrown? {
        successful := false;
        break;
      }
      successful := reply.value;
      if !successful {
        break;
      }
      i := i + 1;
    }
  }

  /** One iteration of the loop of `sendString`. */
  lemma SendEachStep(input: JString, replies: Replies, i: nat)
    requires i < |input|
    ensures !Succeeded(replies(i)) ==> SendEach(input, replies, i) == LoopResult([input[i]], false)
    ensures Succeeded(replies(i)) && i + 1 == |input| ==> SendEach(input, replies, i) == LoopResult([input[i]], true)
    ensures Succeeded(replies(i)) && i + 1 < |input| ==>
      SendEach(input, replies, i)
        == LoopResult([input[i]] + SendEach(input, replies, i + 1).keys, SendEach(input, replies, i + 1).allSucceeded)
  {
  }
}
