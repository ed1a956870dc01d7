/**
  The hand-over from the L2 sync to block production.

  The sync loop sends a block, a state update and a class update over three channels, in any
  interleaving, and then asks for a new Substrate block. The consensus data provider takes one element
  from each channel for the digest of that block.
 */
module SealProtocol {
  import opened Primitives
  import opened Bytes
  import opened Blocks
  import opened DigestLog

  datatype StateUpdate = StateUpdate(
    nonces: seq<(Felt, Felt)>,
    deployedContracts: seq<(Felt, Felt)>,
    replacedClasses: seq<(Felt, Felt)>,
    declaredClasses: seq<(Felt, Felt)>)

  datatype ContractClassData = ContractClassData(hash: Felt, contract: seq<Byte>, abi: seq<Byte>)

  type ClassUpdate = seq<ContractClassData>

  /** What is fetched for one block. */
  datatype Item = Item(block: StarknetBlock, stateUpdate: StateUpdate, classes: ClassUpdate)

  /** The fetched data by block number; no value from the first number that does not exist yet. */
  type Feed = nat -> Option<Item>

  // ----- The receiving side

  datatype Channels = Channels(blocks: seq<StarknetBlock>, states: seq<StateUpdate>, classes: seq<ClassUpdate>)

  /** Which channels are locked by somebody else. */
  datatype Locks = Locks(blocks: bool, states: bool, classes: bool)

  const FREE: Locks := Locks(false, false, false)

  /** Takes one element from each channel. A locked or empty one stops this, and what was taken before is lost. */
  function TakeItem(c: Channels, locks: Locks): (Option<Item>, Channels) {
    if locks.blocks || c.blocks == [] then (None, c)
    else if locks.states || c.states == [] then (None, c.(blocks := c.blocks[1..]))
    else if locks.classes || c.classes == [] then (None, c.(blocks := c.blocks[1..], states := c.states[1..]))
    else (Some(Item(c.blocks[0], c.states[0], c.classes[0])), Channels(c.blocks[1..], c.states[1..], c.classes[1..]))
  }

  datatype PayloadCodec = PayloadCodec(
    codec: Codec,
    encodeState: StateUpdate -> seq<Byte>,
    decodeState: seq<Byte> -> Option<StateUpdate>,
    encodeClasses: ClassUpdate -> seq<Byte>,
    decodeClasses: seq<Byte> -> Option<ClassUpdate>)

  ghost predicate PayloadsRoundTrip(pc: PayloadCodec) {
    && RoundTrips(pc.codec)
    && (forall s :: pc.decodeState(pc.encodeState(s)) == Some(s))
    && (forall c :: pc.decodeClasses(pc.encodeClasses(c)) == Some(c))
  }

  function ItemDigest(pc: PayloadCodec, item: Item): Digest {
    [PreRuntime(MADARA_ENGINE_ID, pc.codec.encodeBlock(item.block)),
     PreRuntime(STATE_ENGINE_ID, pc.encodeState(item.stateUpdate)),
     PreRuntime(CLASS_ENGINE_ID, pc.encodeClasses(item.classes))]
  }

  class ConsensusDataProvider {
    var blocks: seq<StarknetBlock>
    var states: seq<StateUpdate>
    var classes: seq<ClassUpdate>

    constructor ()
      ensures Contents() == Channels([], [], [])
    {
      blocks, states, classes := [], [], [];
    }

    function Contents(): Channels
      reads this
    {
      Channels(blocks, states, classes)
    }

    /** No digest means that a channel was locked or empty. */
    method CreateDigest(pc: PayloadCodec, locks: Locks) returns (digest: Option<Digest>)
      modifies this
      ensures Contents() == TakeItem(old(Contents()), locks).1
      ensures match TakeItem(old(Contents()), locks).0
              case Some(item) => digest == Some(ItemDigest(pc, item))
              case None => digest == None
    {
      if locks.blocks || blocks == [] {
        return None;
      }
      var block := blocks[0];
      blocks := blocks[1..];
      if locks.states || states == [] {
        return None;
      }
      var state := states[0];
      states := states[1..];
      if locks.classes || classes == [] {
        return None;
      }
      var class' := classes[0];
      classes := classes[1..];
      digest := Some([PreRuntime(MADARA_ENGINE_ID, pc.codec.encodeBlock(block)),
                      PreRuntime(STATE_ENGINE_ID, pc.encodeState(state)),
                      PreRuntime(CLASS_ENGINE_ID, pc.encodeClasses(class'))]);
    }
  }

  // ----- The whole protocol

  /** Which of the three sends are done; the seal is requested and not served yet; the loop has ended. */
  datatype Phase = Sending(block: bool, state: bool, classes: bool) | Waiting | Halted

  /** `n` blocks are done. `sealed` are the contents of the digests made so far. */
  datatype State = State(n: nat, phase: Phase, channels: Channels, sealed: seq<Item>)

  const INITIAL: State := State(0, Sending(false, false, false), Channels([], [], []), [])

  const CAPACITY: nat := 100

  datatype Step =
    | SendBlock
    | SendState
    | SendClasses
    | RequestSeal
    | ServeSeal
    | SealFails(locks: Locks)    // the block is not produced, because of a lock or later on
    | EndOfFeed
    | ForeignSeal(locks: Locks)  // somebody else asks for a block, over the same command channel

  predicate Enabled(feed: Feed, first: nat, s: State, step: Step) {
    match step
    case SendBlock =>
      s.phase.Sending? && !s.phase.block && feed(first + s.n).Some? && |s.channels.blocks| < CAPACITY
    case SendState =>
      s.phase.Sending? && !s.phase.state && feed(first + s.n).Some? && |s.channels.states| < CAPACITY
    case SendClasses =>
      s.phase.Sending? && !s.phase.classes && feed(first + s.n).Some? && |s.channels.classes| < CAPACITY
    case RequestSeal => s.phase == Sending(true, true, true)
    case ServeSeal => s.phase == Waiting
    case SealFails(_) => s.phase == Waiting
    case EndOfFeed => s.phase == Sending(false, false, false) && feed(first + s.n).None?
    case ForeignSeal(_) => true
  }

  /** A step that is not enabled does nothing. */
  function Apply(feed: Feed, first: nat, s: State, step: Step): State {
    if !Enabled(feed, first, s, step) then s
    else match step
      case SendBlock =>
        s.(phase := Sending(true, s.phase.state, s.phase.classes),
           channels := s.channels.(blocks := s.channels.blocks + [feed(first + s.n).value.block]))
      case SendState =>
        s.(phase := Sending(s.phase.block, true, s.phase.classes),
           channels := s.channels.(states := s.channels.states + [feed(first + s.n).value.stateUpdate]))
      case SendClasses =>
        s.(phase := Sending(s.phase.block, s.phase.state, true),
           channels := s.channels.(classes := s.channels.classes + [feed(first + s.n).value.classes]))
      case RequestSeal => s.(phase := Waiting)
      case ServeSeal =>
        var (item, rest) := TakeItem(s.channels, FREE);
        if item.Some? then State(s.n + 1, Sending(false, false, false), rest, s.sealed + [item.value])
        else s.(phase := Halted, channels := rest)
      case SealFails(locks) => s.(phase := Halted, channels := TakeItem(s.channels, locks).1)
      case EndOfFeed => s.(phase := Halted)
      case ForeignSeal(locks) =>
        var (item, rest) := TakeItem(s.channels, locks);
        s.(channels := rest, sealed := if item.Some? then s.sealed + [item.value] else s.sealed)
  }

  function Run(feed: Feed, first: nat, steps: seq<Step>): State {
    if steps == [] then INITIAL
    else Apply(feed, first, Run(feed, first, steps[..|steps| - 1]), steps[|steps| - 1])
  }

  // ----- Digests follow the feed, whoever asks for blocks

  /** The k-th digest carries what was fetched for block first + k. */
  ghost predicate Aligned(feed: Feed, first: nat, sealed: seq<Item>) {
    forall k | 0 <= k < |sealed| :: feed(first + k) == Some(sealed[k])
  }

  /** At most one element, and if so the current one, sent before. */
  ghost predicate AtMost<T>(channel: seq<T>, sent: bool, current: T) {
    channel == [] || (sent && channel == [current])
  }

  ghost predicate ChannelsOk(s: State, item: Item) {
    var all := !s.phase.Sending?;
    && AtMost(s.channels.blocks, all || s.phase.block, item.block)
    && AtMost(s.channels.states, all || s.phase.state, item.stateUpdate)
    && AtMost(s.channels.classes, all || s.phase.classes, item.classes)
    && (TakenFrom(s.channels.states, all || s.phase.state) ==> TakenFrom(s.channels.blocks, all || s.phase.block))
    && (TakenFrom(s.channels.classes, all || s.phase.classes) ==> TakenFrom(s.channels.states, all || s.phase.state))
  }

  ghost predicate TakenFrom<T>(channel: seq<T>, sent: bool) {
    sent && channel == []
  }

  ghost predicate AllSent(phase: Phase) {
    phase != Sending(false, false, false) && (phase.Sending? ==> phase == Sending(true, true, true))
  }

  ghost predicate Inv(feed: Feed, first: nat, s: State) {
    && Aligned(feed, first, s.sealed)
    && (if feed(first + s.n).None? then
          s.channels == Channels([], [], []) && s.phase in {Sending(false, false, false), Halted} && |s.sealed| == s.n
        else
          && ChannelsOk(s, feed(first + s.n).value)
          && (|s.sealed| == s.n
              || (|s.sealed| == s.n + 1 && s.channels == Channels([], [], []) && AllSent(s.phase))))
  }

  lemma StepKeepsInv(feed: Feed, first: nat, s: State, step: Step)
    requires Inv(feed, first, s)
    ensures Inv(feed, first, Apply(feed, first, s, step))
  {
  }

  lemma {:induction false} RunKeepsInv(feed: Feed, first: nat, steps: seq<Step>)
    ensures Inv(feed, first, Run(feed, first, steps))
  {
    if steps != [] {
      RunKeepsInv(feed, first, steps[..|steps| - 1]);
      StepKeepsInv(feed, first, Run(feed, first, steps[..|steps| - 1]), steps[|steps| - 1]);
    }
  }

  // ----- Lockstep, if nobody else asks for a block once it is sent

  /** Exactly the sent elements of the current block are in the channels. */
  ghost predicate Exact(feed: Feed, first: nat, s: State) {
    && |s.sealed| == s.n
    && (s.phase == Waiting ==> feed(first + s.n).Some?)
    && match feed(first + s.n)
       case None => s.channels == Channels([], [], [])
       case Some(item) =>
         var all := s.phase == Waiting;
         s.phase != Halted ==>
           s.channels == Channels(if all || s.phase.block then [item.block] else [],
                                  if all || s.phase.state then [item.stateUpdate] else [],
                                  if all || s.phase.classes then [item.classes] else [])
  }

  /** The sync is at work and has not sent the current block yet. */
  ghost predicate Early(s: State) {
    s.phase.Sending? && !s.phase.block
  }

  lemma StepKeepsExact(feed: Feed, first: nat, s: State, step: Step)
    requires Inv(feed, first, s) && Exact(feed, first, s) && (step.ForeignSeal? ==> Early(s))
    ensures Exact(feed, first, Apply(feed, first, s, step))
    ensures s.phase == Waiting ==> TakeItem(s.channels, FREE).0.Some?
  {
  }

  /** Other requests come only before the current block is sent. */
  ghost predicate OthersAreEarly(feed: Feed, first: nat, steps: seq<Step>) {
    forall k | 0 <= k < |steps| && steps[k].ForeignSeal? :: Early(Run(feed, first, steps[..k]))
  }

  lemma {:induction false} EarlyRunIsExact(feed: Feed, first: nat, steps: seq<Step>)
    requires OthersAreEarly(feed, first, steps)
    ensures Exact(feed, first, Run(feed, first, steps))
    decreases steps
  {
    if steps != [] {
      var before := steps[..|steps| - 1];
      forall k | 0 <= k < |before| && before[k].ForeignSeal? ensures Early(Run(feed, first, before[..k])) {
        assert before[..k] == steps[..k] && before[k] == steps[k];
      }
      RunKeepsInv(feed, first, before);
      EarlyRunIsExact(feed, first, before);
      StepKeepsExact(feed, first, Run(feed, first, before), steps[|steps| - 1]);
    }
  }

  /** At most one element a channel, digests in line with the feed, and a seal that finds what it needs. */
  ghost predicate InLockstep(feed: Feed, first: nat, s: State) {
    && |s.channels.blocks| <= 1 && |s.channels.states| <= 1 && |s.channels.classes| <= 1
    && |s.sealed| == s.n
    && Aligned(feed, first, s.sealed)
    && (s.phase == Waiting ==> TakeItem(s.channels, FREE).0 == feed(first + s.n) && feed(first + s.n).Some?)
  }

  lemma ExactIsLockstep(feed: Feed, first: nat, s: State)
    requires Inv(feed, first, s) && Exact(feed, first, s)
    ensures InLockstep(feed, first, s)
  {
  }

  /**
    In every interleaving: no channel ever holds more than one element, the digests carry the fetched data
    block by block, and a requested seal never finds an empty channel.
   */
  lemma Lockstep(feed: Feed, first: nat, steps: seq<Step>)
    requires OthersAreEarly(feed, first, steps)
    ensures InLockstep(feed, first, Run(feed, first, steps))
  {
    RunKeepsInv(feed, first, steps);
    EarlyRunIsExact(feed, first, steps);
    ExactIsLockstep(feed, first, Run(feed, first, steps));
  }

  /** The sync loop is never blocked by a full channel: as long as it has not ended, it can go on. */
  lemma NeverBlocked(feed: Feed, first: nat, steps: seq<Step>)
    ensures var s := Run(feed, first, steps);
            s.phase != Halted ==>
              exists step: Step :: !step.ForeignSeal? && !step.SealFails? && Enabled(feed, first, s, step)
  {
    RunKeepsInv(feed, first, steps);
    var s := Run(feed, first, steps);
    if s.phase.Sending? {
      var step := if feed(first + s.n).None? then EndOfFeed else if !s.phase.block then SendBlock
                  else if !s.phase.state then SendState else if !s.phase.classes then SendClasses else RequestSeal;
      assert Enabled(feed, first, s, step);
    } else if s.phase == Waiting {
      assert Enabled(feed, first, s, ServeSeal);
    }
  }

  // ----- Other issuers

  /** The current block is sent and not sealed yet. */
  ghost predicate Sent(s: State) {
    s.phase == Waiting || (s.phase.Sending? && s.phase.block)
  }

  /** ... and somebody has taken it out of its channel. */
  ghost predicate BlockTaken(s: State) {
    Sent(s) && s.channels.blocks == []
  }

  /** Whoever asks for blocks, the digests stay aligned. The sync's own request fails exactly if its block was taken. */
  lemma AnyIssuers(feed: Feed, first: nat, steps: seq<Step>)
    ensures var s := Run(feed, first, steps);
            && Aligned(feed, first, s.sealed)
            && |s.channels.blocks| <= 1 && |s.channels.states| <= 1 && |s.channels.classes| <= 1
            && (s.phase == Waiting ==> (TakeItem(s.channels, FREE).0.None? <==> BlockTaken(s)))
  {
    RunKeepsInv(feed, first, steps);
  }

  /** Somebody else asks for a block while the sent one is in its channel, and gets at it. */
  ghost predicate Harmful(s: State, step: Step) {
    Sent(s) && step.ForeignSeal? && !step.locks.blocks
  }

  lemma TakenBy(feed: Feed, first: nat, s: State, step: Step)
    requires Inv(feed, first, s)
    ensures var s' := Apply(feed, first, s, step);
            if BlockTaken(s) then s'.n == s.n && (BlockTaken(s') || s'.phase == Halted)
            else BlockTaken(s') <==> Harmful(s, step)
    ensures s.phase == Halted ==> Apply(feed, first, s, step).phase == Halted && Apply(feed, first, s, step).n == s.n
  {
  }

  ghost predicate Stuck(s: State) {
    BlockTaken(s) || s.phase == Halted
  }

  lemma {:induction false} StaysStuck(feed: Feed, first: nat, steps: seq<Step>, later: seq<Step>)
    requires Stuck(Run(feed, first, steps))
    ensures var s := Run(feed, first, steps + later); s.n == Run(feed, first, steps).n && Stuck(s)
    decreases later
  {
    if later == [] {
      assert steps + later == steps;
    } else {
      var before, last := later[..|later| - 1], later[|later| - 1];
      StaysStuck(feed, first, steps, before);
      assert steps + later == (steps + before) + [last];
      RunKeepsInv(feed, first, steps + before);
      RunStep(feed, first, steps + before, last);
      TakenBy(feed, first, Run(feed, first, steps + before), last);
    }
  }

  lemma RunStep(feed: Feed, first: nat, steps: seq<Step>, step: Step)
    ensures Run(feed, first, steps + [step]) == Apply(feed, first, Run(feed, first, steps), step)
  {
    assert (steps + [step])[..|steps|] == steps;
  }

  /** After a foreign request that gets at the sent block, the sync never finishes that block. */
  lemma ForeignSealEndsSync(feed: Feed, first: nat, steps: seq<Step>, step: Step, later: seq<Step>)
    requires Harmful(Run(feed, first, steps), step)
    ensures var s := Run(feed, first, steps + [step] + later);
            s.n == Run(feed, first, steps).n && Stuck(s)
  {
    RunKeepsInv(feed, first, steps);
    RunStep(feed, first, steps, step);
    TakenBy(feed, first, Run(feed, first, steps), step);
    StaysStuck(feed, first, steps + [step], later);
  }

  ghost predicate HarmfulAt(feed: Feed, first: nat, steps: seq<Step>, k: nat) {
    k < |steps| && Harmful(Run(feed, first, steps[..k]), steps[k])
  }

  ghost predicate HarmlessRun(feed: Feed, first: nat, steps: seq<Step>) {
    forall k: nat {:trigger HarmfulAt(feed, first, steps, k)} :: !HarmfulAt(feed, first, steps, k)
  }

  lemma HarmedIsStuck(feed: Feed, first: nat, steps: seq<Step>, k: nat)
    requires HarmfulAt(feed, first, steps, k)
    ensures Stuck(Run(feed, first, steps))
  {
    var before, later := steps[..k], steps[k + 1..];
    ForeignSealEndsSync(feed, first, before, steps[k], later);
    assert steps == before + [steps[k]] + later;
  }

  lemma {:induction false} HarmlessNotTaken(feed: Feed, first: nat, steps: seq<Step>)
    requires HarmlessRun(feed, first, steps)
    ensures !BlockTaken(Run(feed, first, steps))
    decreases steps
  {
    if steps != [] {
      var last := |steps| - 1;
      var before := steps[..last];
      forall k: nat ensures !HarmfulAt(feed, first, before, k) {
        if k < last {
          assert !HarmfulAt(feed, first, steps, k);
          assert before[..k] == steps[..k] && before[k] == steps[k];
        }
      }
      assert !HarmfulAt(feed, first, steps, last);
      HarmlessNotTaken(feed, first, before);
      RunKeepsInv(feed, first, before);
      TakenBy(feed, first, Run(feed, first, before), steps[last]);
    }
  }

  lemma TakenIffHarmed(feed: Feed, first: nat, steps: seq<Step>)
    requires Sent(Run(feed, first, steps))
    ensures BlockTaken(Run(feed, first, steps)) <==> !HarmlessRun(feed, first, steps)
  {
    if k: nat :| HarmfulAt(feed, first, steps, k) {
      HarmedIsStuck(feed, first, steps, k);
    } else {
      HarmlessNotTaken(feed, first, steps);
    }
  }

  /** The steps that finish the current block. */
  function FinishingSteps(s: State): seq<Step> {
    (if s.phase.Sending? && !s.phase.state then [SendState] else [])
    + (if s.phase.Sending? && !s.phase.classes then [SendClasses] else [])
    + (if s.phase.Sending? then [RequestSeal] else [])
    + [ServeSeal]
  }

  function RunFrom(feed: Feed, first: nat, s: State, steps: seq<Step>): State
    decreases steps
  {
    if steps == [] then s else RunFrom(feed, first, Apply(feed, first, s, steps[0]), steps[1..])
  }

  lemma {:induction false} RunFromRun(feed: Feed, first: nat, steps: seq<Step>, later: seq<Step>)
    ensures Run(feed, first, steps + later) == RunFrom(feed, first, Run(feed, first, steps), later)
    decreases later
  {
    if later == [] {
      assert steps + later == steps;
    } else {
      RunStep(feed, first, steps, later[0]);
      RunFromRun(feed, first, steps + [later[0]], later[1..]);
      assert steps + later == (steps + [later[0]]) + later[1..];
    }
  }

  lemma {:induction false} RunFromConcat(feed: Feed, first: nat, s: State, a: seq<Step>, b: seq<Step>)
    ensures RunFrom(feed, first, s, a + b) == RunFrom(feed, first, RunFrom(feed, first, s, a), b)
    decreases a
  {
    if a == [] {
      assert a + b == b;
    } else {
      RunFromConcat(feed, first, Apply(feed, first, s, a[0]), a[1..], b);
      assert (a + b)[0] == a[0] && (a + b)[1..] == a[1..] + b;
    }
  }

  lemma One(feed: Feed, first: nat, s: State, step: Step)
    ensures RunFrom(feed, first, s, [step]) == Apply(feed, first, s, step)
  {
    assert [step][1..] == [];
  }

  lemma SendsTheRest(feed: Feed, first: nat, s: State) returns (s': State)
    requires Inv(feed, first, s) && Sent(s) && !BlockTaken(s)
    ensures Inv(feed, first, s') && s'.phase == Waiting && !BlockTaken(s') && s'.n == s.n
    ensures RunFrom(feed, first, s, FinishingSteps(s)) == Apply(feed, first, s', ServeSeal)
  {
    var a := if s.phase.Sending? && !s.phase.state then [SendState] else [];
    var b := if s.phase.Sending? && !s.phase.classes then [SendClasses] else [];
    var c := if s.phase.Sending? then [RequestSeal] else [];
    var s1 := RunFrom(feed, first, s, a);
    var s2 := RunFrom(feed, first, s1, b);
    s' := RunFrom(feed, first, s2, c);
    Stepwise(feed, first, s, a);
    Stepwise(feed, first, s1, b);
    Stepwise(feed, first, s2, c);
    RunFromConcat(feed, first, s, a, b);
    RunFromConcat(feed, first, s, a + b, c);
    RunFromConcat(feed, first, s, a + b + c, [ServeSeal]);
    One(feed, first, s', ServeSeal);
  }

  /** At most one step of the sync's own. */
  lemma Stepwise(feed: Feed, first: nat, s: State, steps: seq<Step>)
    requires Inv(feed, first, s) && Sent(s) && !BlockTaken(s)
    requires |steps| <= 1 && forall k | 0 <= k < |steps| :: steps[k] in {SendState, SendClasses, RequestSeal}
    ensures var s' := RunFrom(feed, first, s, steps);
            && Inv(feed, first, s') && Sent(s') && !BlockTaken(s') && s'.n == s.n
            && s' == if steps == [] then s else Apply(feed, first, s, steps[0])
  {
    if steps != [] {
      assert steps == [steps[0]];
      One(feed, first, s, steps[0]);
      StepKeepsInv(feed, first, s, steps[0]);
      TakenBy(feed, first, s, steps[0]);
    }
  }

  /** Once a block is sent, the sync can still finish it if and only if no foreign request ever got at a sent block. */
  lemma CanFinishIff(feed: Feed, first: nat, steps: seq<Step>)
    requires Sent(Run(feed, first, steps))
    ensures (exists later: seq<Step> :: Run(feed, first, steps + later).n > Run(feed, first, steps).n)
       <==> HarmlessRun(feed, first, steps)
  {
    var s := Run(feed, first, steps);
    TakenIffHarmed(feed, first, steps);
    RunKeepsInv(feed, first, steps);
    if BlockTaken(s) {
      forall later: seq<Step> ensures Run(feed, first, steps + later).n == s.n {
        StaysStuck(feed, first, steps, later);
      }
    } else {
      var s' := SendsTheRest(feed, first, s);
      RunFromRun(feed, first, steps, FinishingSteps(s));
      assert Run(feed, first, steps + FinishingSteps(s)).n == s.n + 1;
    }
  }
}
