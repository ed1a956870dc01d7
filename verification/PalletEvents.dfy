/**
  The events and messages that the Starknet pallet stores for a transaction, and the ones the RPC layer
  extracts, from the call trees that execution leaves behind.
 */
module PalletEvents {
  import opened Primitives
  import opened CallReplay

  type TransactionHash = nat

  datatype EventContent = EventContent(keys: seq<Felt>, data: seq<Felt>)

  datatype MessageContent = MessageContent(toAddress: Felt, payload: seq<Felt>)

  datatype CallInfo = CallInfo(
    storageAddress: Felt,
    events: seq<Ordered<EventContent>>,
    messages: seq<Ordered<MessageContent>>,
    innerCalls: seq<CallInfo>)

  datatype StarknetEvent = StarknetEvent(fromAddress: Felt, content: EventContent)

  datatype MessageToL1 = MessageToL1(fromAddress: Felt, toAddress: Felt, payload: seq<Felt>)

  // ----- A call tree seen as a tree of events, and as a tree of messages

  function EventTree(c: CallInfo): Tree<EventContent> {
    Node(c.storageAddress, c.events, EventTrees(c.innerCalls))
  }

  function EventTrees(cs: seq<CallInfo>): (r: seq<Tree<EventContent>>)
    ensures |r| == |cs| && forall k | 0 <= k < |cs| :: r[k] == EventTree(cs[k])
  {
    if cs == [] then [] else [EventTree(cs[0])] + EventTrees(cs[1..])
  }

  function MessageTree(c: CallInfo): Tree<MessageContent> {
    Node(c.storageAddress, c.messages, MessageTrees(c.innerCalls))
  }

  function MessageTrees(cs: seq<CallInfo>): (r: seq<Tree<MessageContent>>)
    ensures |r| == |cs| && forall k | 0 <= k < |cs| :: r[k] == MessageTree(cs[k])
  {
    if cs == [] then [] else [MessageTree(cs[0])] + MessageTrees(cs[1..])
  }

  function AsEvent(e: Emission<EventContent>): StarknetEvent {
    StarknetEvent(e.from, e.content)
  }

  function AsMessage(m: Emission<MessageContent>): MessageToL1 {
    MessageToL1(m.from, m.content.toAddress, m.content.payload)
  }

  /** What the pallet stores for one call tree. */
  function EmittedEvents(c: CallInfo): seq<StarknetEvent> {
    Mapped(AsEvent, Replay(EventTree(c), 0).out)
  }

  function EmittedMessages(c: CallInfo): seq<MessageToL1> {
    Mapped(AsMessage, Replay(MessageTree(c), 0).out)
  }

  /** A storage map of lists after appending `xs` one by one; appending nothing creates no entry. */
  function Appended<T>(m: map<TransactionHash, seq<T>>, key: TransactionHash, xs: seq<T>)
    : map<TransactionHash, seq<T>>
  {
    if xs == [] then m else m[key := (if key in m then m[key] else []) + xs]
  }

  lemma AppendedTwice<T>(m: map<TransactionHash, seq<T>>, key: TransactionHash, xs: seq<T>, ys: seq<T>)
    ensures Appended(Appended(m, key, xs), key, ys) == Appended(m, key, xs + ys)
  {
    var old' := if key in m then m[key] else [];
    assert old' + xs + ys == old' + (xs + ys);
    assert ys == [] ==> xs + ys == xs;
    assert xs == [] ==> xs + ys == ys;
  }

  lemma MappedConcat<A, B>(f: A -> B, xs: seq<A>, ys: seq<A>)
    ensures Mapped(f, xs + ys) == Mapped(f, xs) + Mapped(f, ys)
  {
    assert Mapped(f, xs + ys) == Mapped(f, xs) + Mapped(f, ys);
  }

  lemma StoredMore<A, B>(m: map<TransactionHash, seq<B>>, key: TransactionHash, f: A -> B, xs: seq<A>, ys: seq<A>)
    ensures Appended(Appended(m, key, Mapped(f, xs)), key, Mapped(f, ys)) == Appended(m, key, Mapped(f, xs + ys))
  {
    MappedConcat(f, xs, ys);
    AppendedTwice(m, key, Mapped(f, xs), Mapped(f, ys));
  }

  lemma DepositedMore<A, B>(log: seq<B>, f: A -> B, xs: seq<A>, ys: seq<A>)
    ensures log + Mapped(f, xs) + Mapped(f, ys) == log + Mapped(f, xs + ys)
  {
    MappedConcat(f, xs, ys);
    assert log + Mapped(f, xs) + Mapped(f, ys) == log + (Mapped(f, xs) + Mapped(f, ys));
  }

  // ----- The pallet's storage and its two recursive loops

  class Pallet {
    var txEvents: map<TransactionHash, seq<StarknetEvent>>
    var txMessages: map<TransactionHash, seq<MessageToL1>>
    /** Events deposited in the runtime's event log. */
    var deposited: seq<StarknetEvent>

    constructor ()
      ensures txEvents == map[] && txMessages == map[] && deposited == []
    {
      txEvents, txMessages, deposited := map[], map[], [];
    }

    method EmitEventsInCallInfo(txHash: TransactionHash, callInfo: CallInfo, start: nat) returns (nextOrder: nat)
      modifies this`txEvents, this`deposited
      ensures nextOrder == Replay(EventTree(callInfo), start).next
      ensures deposited == old(deposited) + Mapped(AsEvent, Replay(EventTree(callInfo), start).out)
      ensures txEvents == Appended(old(txEvents), txHash, Mapped(AsEvent, Replay(EventTree(callInfo), start).out))
      decreases callInfo
    {
      ghost var t := EventTree(callInfo);
      var eventIdx, innerCallIdx := 0, 0;
      nextOrder := start;
      ghost var done: seq<Emission<EventContent>> := [];
      while true
        invariant eventIdx <= |callInfo.events| && innerCallIdx <= |callInfo.innerCalls|
        invariant Reached(t, start, done, eventIdx, innerCallIdx, nextOrder)
        invariant deposited == old(deposited) + Mapped(AsEvent, done)
        invariant txEvents == Appended(old(txEvents), txHash, Mapped(AsEvent, done))
        decreases |callInfo.events| - eventIdx + |callInfo.innerCalls| - innerCallIdx
      {
        if eventIdx < |callInfo.events| {
          var orderedEvent := callInfo.events[eventIdx];
          if orderedEvent.order == nextOrder {
            var event := StarknetEvent(callInfo.storageAddress, orderedEvent.content);
            deposited := deposited + [event];
            txEvents := Appended(txEvents, txHash, [event]);
            ReachedItem(t, start, done, eventIdx, innerCallIdx, nextOrder);
            ghost var sent := [Emission(callInfo.storageAddress, nextOrder, orderedEvent.content)];
            assert Mapped(AsEvent, sent) == [event];
            StoredMore(old(txEvents), txHash, AsEvent, done, sent);
            DepositedMore(old(deposited), AsEvent, done, sent);
            done := done + sent;
            nextOrder := nextOrder + 1;
            eventIdx := eventIdx + 1;
            continue;
          }
        }
        if innerCallIdx < |callInfo.innerCalls| {
          ReachedCall(t, start, done, eventIdx, innerCallIdx, nextOrder);
          ghost var out := Replay(t.inner[innerCallIdx], nextOrder).out;
          nextOrder := EmitEventsInCallInfo(txHash, callInfo.innerCalls[innerCallIdx], nextOrder);
          StoredMore(old(txEvents), txHash, AsEvent, done, out);
          DepositedMore(old(deposited), AsEvent, done, out);
          done := done + out;
          innerCallIdx := innerCallIdx + 1;
          continue;
        }
        ReachedEnd(t, start, done, eventIdx, nextOrder);
        break;
      }
    }

    method AggregateMessagesInCallInfo(txHash: TransactionHash, callInfo: CallInfo, start: nat) returns (nextOrder: nat)
      modifies this`txMessages
      ensures nextOrder == Replay(MessageTree(callInfo), start).next
      ensures txMessages
           == Appended(old(txMessages), txHash, Mapped(AsMessage, Replay(MessageTree(callInfo), start).out))
      decreases callInfo
    {
      ghost var t := MessageTree(callInfo);
      var messageIdx, innerCallIdx := 0, 0;
      nextOrder := start;
      ghost var done: seq<Emission<MessageContent>> := [];
      while true
        invariant messageIdx <= |callInfo.messages| && innerCallIdx <= |callInfo.innerCalls|
        invariant Reached(t, start, done, messageIdx, innerCallIdx, nextOrder)
        invariant txMessages == Appended(old(txMessages), txHash, Mapped(AsMessage, done))
        decreases |callInfo.messages| - messageIdx + |callInfo.innerCalls| - innerCallIdx
      {
        if messageIdx < |callInfo.messages| {
          var orderedMessage := callInfo.messages[messageIdx];
          if orderedMessage.order == nextOrder {
            var message := MessageToL1(callInfo.storageAddress, orderedMessage.content.toAddress,
                                       orderedMessage.content.payload);
            txMessages := Appended(txMessages, txHash, [message]);
            ReachedItem(t, start, done, messageIdx, innerCallIdx, nextOrder);
            ghost var sent := [Emission(callInfo.storageAddress, nextOrder, orderedMessage.content)];
            assert Mapped(AsMessage, sent) == [message];
            StoredMore(old(txMessages), txHash, AsMessage, done, sent);
            done := done + sent;
            nextOrder := nextOrder + 1;
            messageIdx := messageIdx + 1;
            continue;
          }
        }
        if innerCallIdx < |callInfo.innerCalls| {
          ReachedCall(t, start, done, messageIdx, innerCallIdx, nextOrder);
          ghost var out := Replay(t.inner[innerCallIdx], nextOrder).out;
          nextOrder := AggregateMessagesInCallInfo(txHash, callInfo.innerCalls[innerCallIdx], nextOrder);
          StoredMore(old(txMessages), txHash, AsMessage, done, out);
          done := done + out;
          innerCallIdx := innerCallIdx + 1;
          continue;
        }
        ReachedEnd(t, start, done, messageIdx, nextOrder);
        break;
      }
    }

    /** The execute call first, then the fee transfer; each is numbered from 0 again. */
    method EmitAndStoreTxAndFeesEvents(txHash: TransactionHash, execute: Option<CallInfo>,
                                       feeTransfer: Option<CallInfo>)
      modifies this
      ensures txEvents == Appended(old(txEvents), txHash, EventsOf(execute) + EventsOf(feeTransfer))
      ensures txMessages == Appended(old(txMessages), txHash, MessagesOf(execute) + MessagesOf(feeTransfer))
      ensures deposited == old(deposited) + EventsOf(execute) + EventsOf(feeTransfer)
    {
      if execute.Some? {
        var _ := EmitEventsInCallInfo(txHash, execute.value, 0);
        var _ := AggregateMessagesInCallInfo(txHash, execute.value, 0);
      }
      if feeTransfer.Some? {
        var _ := EmitEventsInCallInfo(txHash, feeTransfer.value, 0);
        var _ := AggregateMessagesInCallInfo(txHash, feeTransfer.value, 0);
      }
      AppendedTwice(old(txEvents), txHash, EventsOf(execute), EventsOf(feeTransfer));
      AppendedTwice(old(txMessages), txHash, MessagesOf(execute), MessagesOf(feeTransfer));
    }
  }

  function EventsOf(c: Option<CallInfo>): seq<StarknetEvent> {
    if c.Some? then EmittedEvents(c.value) else []
  }

  function MessagesOf(c: Option<CallInfo>): seq<MessageToL1> {
    if c.Some? then EmittedMessages(c.value) else []
  }

  // ----- Executions with both kinds of items

  datatype Step =
    | EmitEvent(event: EventContent)
    | SendMessage(message: MessageContent)
    | Call(address: Felt, body: seq<Step>)

  datatype Recorded = Recorded(info: CallInfo, nextEvent: nat, nextMessage: nat)

  /** Execution numbers events and messages with two separate counters. */
  function Record(address: Felt, steps: seq<Step>, event: nat, message: nat): Recorded
    decreases steps
  {
    if steps == [] then
      Recorded(CallInfo(address, [], [], []), event, message)
    else match steps[0]
      case EmitEvent(e) =>
        var rest := Record(address, steps[1..], event + 1, message);
        rest.(info := rest.info.(events := [Ordered(event, e)] + rest.info.events))
      case SendMessage(m) =>
        var rest := Record(address, steps[1..], event, message + 1);
        rest.(info := rest.info.(messages := [Ordered(message, m)] + rest.info.messages))
      case Call(callee, body) =>
        var call := Record(callee, body, event, message);
        var rest := Record(address, steps[1..], call.nextEvent, call.nextMessage);
        rest.(info := rest.info.(innerCalls := [call.info] + rest.info.innerCalls))
  }

  /** The events of an execution, in the order they happened. */
  function EventLog(address: Felt, steps: seq<Step>): seq<StarknetEvent>
    decreases steps
  {
    if steps == [] then
      []
    else match steps[0]
      case EmitEvent(e) => [StarknetEvent(address, e)] + EventLog(address, steps[1..])
      case SendMessage(_) => EventLog(address, steps[1..])
      case Call(callee, body) => EventLog(callee, body) + EventLog(address, steps[1..])
  }

  function MessageLog(address: Felt, steps: seq<Step>): seq<MessageToL1>
    decreases steps
  {
    if steps == [] then
      []
    else match steps[0]
      case EmitEvent(_) => MessageLog(address, steps[1..])
      case SendMessage(m) => [MessageToL1(address, m.toAddress, m.payload)] + MessageLog(address, steps[1..])
      case Call(callee, body) => MessageLog(callee, body) + MessageLog(address, steps[1..])
  }

  function EventActs(steps: seq<Step>): seq<Act<EventContent>> {
    if steps == [] then
      []
    else match steps[0]
      case EmitEvent(e) => [Emit(e)] + EventActs(steps[1..])
      case SendMessage(_) => EventActs(steps[1..])
      case Call(callee, body) => [Nested(callee, EventActs(body))] + EventActs(steps[1..])
  }

  function MessageActs(steps: seq<Step>): seq<Act<MessageContent>> {
    if steps == [] then
      []
    else match steps[0]
      case EmitEvent(_) => MessageActs(steps[1..])
      case SendMessage(m) => [Emit(m)] + MessageActs(steps[1..])
      case Call(callee, body) => [Nested(callee, MessageActs(body))] + MessageActs(steps[1..])
  }

  lemma {:induction false} RecordedEvents(address: Felt, steps: seq<Step>, event: nat, message: nat)
    ensures EventTree(Record(address, steps, event, message).info) == RecordTree(address, EventActs(steps), event)
    ensures Record(address, steps, event, message).nextEvent == RecordActs(EventActs(steps), event).next
    decreases steps
  {
    if steps != [] {
      match steps[0]
      case EmitEvent(e) =>
        RecordedEvents(address, steps[1..], event + 1, message);
        assert EventActs(steps)[1..] == EventActs(steps[1..]);
      case SendMessage(_) =>
        RecordedEvents(address, steps[1..], event, message + 1);
      case Call(callee, body) =>
        var call := Record(callee, body, event, message);
        var rest := Record(address, steps[1..], call.nextEvent, call.nextMessage);
        RecordedEvents(callee, body, event, message);
        RecordedEvents(address, steps[1..], call.nextEvent, call.nextMessage);
        assert EventActs(steps)[1..] == EventActs(steps[1..]);
        assert ([call.info] + rest.info.innerCalls)[1..] == rest.info.innerCalls;
    }
  }

  lemma {:induction false} RecordedMessages(address: Felt, steps: seq<Step>, event: nat, message: nat)
    ensures MessageTree(Record(address, steps, event, message).info) == RecordTree(address, MessageActs(steps), message)
    ensures Record(address, steps, event, message).nextMessage == RecordActs(MessageActs(steps), message).next
    decreases steps
  {
    if steps != [] {
      match steps[0]
      case EmitEvent(_) =>
        RecordedMessages(address, steps[1..], event + 1, message);
      case SendMessage(m) =>
        RecordedMessages(address, steps[1..], event, message + 1);
        assert MessageActs(steps)[1..] == MessageActs(steps[1..]);
      case Call(callee, body) =>
        var call := Record(callee, body, event, message);
        var rest := Record(address, steps[1..], call.nextEvent, call.nextMessage);
        RecordedMessages(callee, body, event, message);
        RecordedMessages(address, steps[1..], call.nextEvent, call.nextMessage);
        assert MessageActs(steps)[1..] == MessageActs(steps[1..]);
        assert ([call.info] + rest.info.innerCalls)[1..] == rest.info.innerCalls;
    }
  }

  lemma {:induction false} EventHistory(address: Felt, steps: seq<Step>, event: nat)
    ensures Mapped(AsEvent, History(address, EventActs(steps), event)) == EventLog(address, steps)
    decreases steps
  {
    if steps != [] {
      match steps[0]
      case EmitEvent(e) =>
        EventHistory(address, steps[1..], event + 1);
        assert EventActs(steps)[1..] == EventActs(steps[1..]);
        MappedConcat(AsEvent, [Emission(address, event, e)], History(address, EventActs(steps[1..]), event + 1));
      case SendMessage(_) =>
        EventHistory(address, steps[1..], event);
      case Call(callee, body) =>
        var next := RecordActs(EventActs(body), event).next;
        EventHistory(callee, body, event);
        EventHistory(address, steps[1..], next);
        assert EventActs(steps)[1..] == EventActs(steps[1..]);
        MappedConcat(AsEvent, History(callee, EventActs(body), event), History(address, EventActs(steps[1..]), next));
    }
  }

  lemma {:induction false} MessageHistory(address: Felt, steps: seq<Step>, message: nat)
    ensures Mapped(AsMessage, History(address, MessageActs(steps), message)) == MessageLog(address, steps)
    decreases steps
  {
    if steps != [] {
      match steps[0]
      case EmitEvent(_) =>
        MessageHistory(address, steps[1..], message);
      case SendMessage(m) =>
        MessageHistory(address, steps[1..], message + 1);
        assert MessageActs(steps)[1..] == MessageActs(steps[1..]);
        MappedConcat(AsMessage, [Emission(address, message, m)],
                     History(address, MessageActs(steps[1..]), message + 1));
      case Call(callee, body) =>
        var next := RecordActs(MessageActs(body), message).next;
        MessageHistory(callee, body, message);
        MessageHistory(address, steps[1..], next);
        assert MessageActs(steps)[1..] == MessageActs(steps[1..]);
        MappedConcat(AsMessage, History(callee, MessageActs(body), message),
                     History(address, MessageActs(steps[1..]), next));
    }
  }

  /** Whatever a transaction executes, the pallet stores its events and messages in execution order. */
  lemma ExecutionIsReplayed(address: Felt, steps: seq<Step>)
    ensures EmittedEvents(Record(address, steps, 0, 0).info) == EventLog(address, steps)
    ensures EmittedMessages(Record(address, steps, 0, 0).info) == MessageLog(address, steps)
    ensures Replay(EventTree(Record(address, steps, 0, 0).info), 0).next == |EventLog(address, steps)|
    ensures Replay(MessageTree(Record(address, steps, 0, 0).info), 0).next == |MessageLog(address, steps)|
  {
    RecordedEvents(address, steps, 0, 0);
    RecordedMessages(address, steps, 0, 0);
    EventHistory(address, steps, 0);
    MessageHistory(address, steps, 0);
    ReplayOfRecording(address, EventActs(steps), 0);
    ReplayOfRecording(address, MessageActs(steps), 0);
  }

  // ----- What the RPC layer extracts, in tree order

  function ExtractEvents(c: CallInfo): seq<StarknetEvent> {
    seq(|c.events|, k requires 0 <= k < |c.events| => StarknetEvent(c.storageAddress, c.events[k].content))
    + ExtractAllEvents(c.innerCalls)
  }

  function ExtractAllEvents(cs: seq<CallInfo>): seq<StarknetEvent> {
    if cs == [] then [] else ExtractEvents(cs[0]) + ExtractAllEvents(cs[1..])
  }

  function ExtractMessages(c: CallInfo): seq<MessageToL1> {
    seq(|c.messages|, k requires 0 <= k < |c.messages| =>
      MessageToL1(c.storageAddress, c.messages[k].content.toAddress, c.messages[k].content.payload))
    + ExtractAllMessages(c.innerCalls)
  }

  function ExtractAllMessages(cs: seq<CallInfo>): seq<MessageToL1> {
    if cs == [] then [] else ExtractMessages(cs[0]) + ExtractAllMessages(cs[1..])
  }

  lemma {:induction false} ExtractedEventsAreItems(c: CallInfo)
    ensures ExtractEvents(c) == Mapped(AsEvent, Items(EventTree(c)))
  {
    AllExtractedEventsAreItems(c.innerCalls);
  }

  lemma {:induction false} AllExtractedEventsAreItems(cs: seq<CallInfo>)
    ensures ExtractAllEvents(cs) == Mapped(AsEvent, AllItems(EventTrees(cs)))
  {
    if cs != [] {
      ExtractedEventsAreItems(cs[0]);
      AllExtractedEventsAreItems(cs[1..]);
      assert EventTrees(cs)[1..] == EventTrees(cs[1..]);
    }
  }

  lemma {:induction false} ExtractedMessagesAreItems(c: CallInfo)
    ensures ExtractMessages(c) == Mapped(AsMessage, Items(MessageTree(c)))
  {
    AllExtractedMessagesAreItems(c.innerCalls);
  }

  lemma {:induction false} AllExtractedMessagesAreItems(cs: seq<CallInfo>)
    ensures ExtractAllMessages(cs) == Mapped(AsMessage, AllItems(MessageTrees(cs)))
  {
    if cs != [] {
      ExtractedMessagesAreItems(cs[0]);
      AllExtractedMessagesAreItems(cs[1..]);
      assert MessageTrees(cs)[1..] == MessageTrees(cs[1..]);
    }
  }

  /** On a recorded tree the extracted events and messages are a permutation of the stored ones. */
  lemma ExtractionIsPermutation(address: Felt, steps: seq<Step>)
    ensures multiset(ExtractEvents(Record(address, steps, 0, 0).info)) == multiset(EventLog(address, steps))
    ensures multiset(ExtractMessages(Record(address, steps, 0, 0).info)) == multiset(MessageLog(address, steps))
  {
    var c := Record(address, steps, 0, 0).info;
    ExecutionIsReplayed(address, steps);
    RecordedEvents(address, steps, 0, 0);
    RecordedMessages(address, steps, 0, 0);
    RecordedReplayIsPermutation(address, EventActs(steps), 0);
    RecordedReplayIsPermutation(address, MessageActs(steps), 0);
    ExtractedEventsAreItems(c);
    ExtractedMessagesAreItems(c);
    MappedPermutation(AsEvent, Items(EventTree(c)), Replay(EventTree(c), 0).out);
    MappedPermutation(AsMessage, Items(MessageTree(c)), Replay(MessageTree(c), 0).out);
  }
}
