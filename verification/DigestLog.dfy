/** Reading the wrapped Starknet block from the digest of a Substrate block. */
module DigestLog {
  import opened Primitives
  import opened Bytes
  import opened Blocks

  type EngineId = string

  const MADARA_ENGINE_ID: EngineId := "mada"
  const STATE_ENGINE_ID: EngineId := "stat"
  const CLASS_ENGINE_ID: EngineId := "claz"

  datatype DigestItem =
    | PreRuntime(engine: EngineId, data: seq<Byte>)
    | Consensus(engine: EngineId, data: seq<Byte>)
    | Seal(engine: EngineId, data: seq<Byte>)
    | Other(bytes: seq<Byte>)
    | RuntimeEnvironmentUpdated

  type Digest = seq<DigestItem>

  datatype Log = Block(block: StarknetBlock)

  datatype FindLogError = NotLog | MultipleLogs

  /** The byte encoding of blocks and logs, which comes from a library. */
  datatype Codec = Codec(
    encodeBlock: StarknetBlock -> seq<Byte>,
    decodeBlock: seq<Byte> -> Option<StarknetBlock>,
    encodeLog: Log -> seq<Byte>,
    decodeLog: seq<Byte> -> Option<Log>)

  /** What is encoded decodes to the same thing again. */
  ghost predicate RoundTrips(codec: Codec) {
    && (forall b :: codec.decodeBlock(codec.encodeBlock(b)) == Some(b))
    && (forall l :: codec.decodeLog(codec.encodeLog(l)) == Some(l))
  }

  /** The log in a digest item, if it is a consensus item of the given engine that decodes. */
  function TryTo(codec: Codec, item: DigestItem, engine: EngineId): Option<Log> {
    if item.Consensus? && item.engine == engine then codec.decodeLog(item.data) else None
  }

  /** All logs of an engine in a digest. */
  function Logs(codec: Codec, digest: Digest, engine: EngineId): seq<Log> {
    if digest == [] then
      []
    else
      var last := TryTo(codec, digest[|digest| - 1], engine);
      Logs(codec, digest[..|digest| - 1], engine) + (if last.Some? then [last.value] else [])
  }

  lemma {:induction false} LogsConcat(codec: Codec, a: Digest, b: Digest, engine: EngineId)
    ensures Logs(codec, a + b, engine) == Logs(codec, a, engine) + Logs(codec, b, engine)
    decreases b
  {
    if b == [] {
      assert a + b == a;
    } else {
      assert (a + b)[..|a + b| - 1] == a + b[..|b| - 1];
      LogsConcat(codec, a, b[..|b| - 1], engine);
    }
  }

  /** Exactly one log is expected, no more, no less. */
  function TheOnlyLog(logs: seq<Log>): Result<Log, FindLogError> {
    if |logs| == 0 then Err(NotLog) else if |logs| == 1 then Ok(logs[0]) else Err(MultipleLogs)
  }

  method FindLogOf(codec: Codec, digest: Digest, engine: EngineId) returns (r: Result<Log, FindLogError>)
    ensures r == TheOnlyLog(Logs(codec, digest, engine))
  {
    var found: Option<Log> := None;
    var i := 0;
    while i < |digest|
      invariant 0 <= i <= |digest|
      invariant Logs(codec, digest[..i], engine) == if found.Some? then [found.value] else []
    {
      assert digest[..i + 1][..i] == digest[..i];
      var log := TryTo(codec, digest[i], engine);
      match (log, found.Some?) {
        case (Some(_), true) =>
          LogsConcat(codec, digest[..i + 1], digest[i + 1..], engine);
          assert digest == digest[..i + 1] + digest[i + 1..];
          return Err(MultipleLogs);
        case (Some(l), false) =>
          found := Some(l);
        case (None, _) =>
      }
      i := i + 1;
    }
    assert digest[..|digest|] == digest;
    r := if found.Some? then Ok(found.value) else Err(NotLog);
  }

  function FindLog(codec: Codec, digest: Digest): Result<Log, FindLogError> {
    TheOnlyLog(Logs(codec, digest, MADARA_ENGINE_ID))
  }

  function FindStarknetBlock(codec: Codec, digest: Digest): Result<StarknetBlock, FindLogError> {
    match FindLog(codec, digest)
    case Ok(Block(b)) => Ok(b)
    case Err(e) => Err(e)
  }

  /** The positions in a digest that hold a Madara log that decodes. */
  ghost function LogPositions(codec: Codec, digest: Digest): set<nat> {
    set k: nat | k < |digest| && TryTo(codec, digest[k], MADARA_ENGINE_ID).Some?
  }

  lemma {:induction false} LogsByPosition(codec: Codec, digest: Digest)
    ensures |Logs(codec, digest, MADARA_ENGINE_ID)| == |LogPositions(codec, digest)|
    ensures forall l :: l in Logs(codec, digest, MADARA_ENGINE_ID) ==>
              exists k :: k in LogPositions(codec, digest) && TryTo(codec, digest[k], MADARA_ENGINE_ID) == Some(l)
  {
    if digest == [] {
      assert LogPositions(codec, digest) == {};
    } else {
      var last := |digest| - 1;
      LogsByPosition(codec, digest[..last]);
      var here := if TryTo(codec, digest[last], MADARA_ENGINE_ID).Some? then {last} else {};
      assert LogPositions(codec, digest) == LogPositions(codec, digest[..last]) + here;
      assert last !in LogPositions(codec, digest[..last]);
    }
  }

  /**
    The block is found if and only if exactly one Madara consensus item of the digest decodes, and then
    it is the block of that item; the two errors tell no item from several.
   */
  lemma FoundIffOnlyOne(codec: Codec, digest: Digest)
    ensures FindStarknetBlock(codec, digest).Ok? <==> |LogPositions(codec, digest)| == 1
    ensures FindStarknetBlock(codec, digest) == Err(NotLog) <==> LogPositions(codec, digest) == {}
    ensures FindStarknetBlock(codec, digest).Ok? ==>
              exists k :: LogPositions(codec, digest) == {k} && k < |digest|
                       && TryTo(codec, digest[k], MADARA_ENGINE_ID)
                       == Some(Block(FindStarknetBlock(codec, digest).value))
  {
    LogsByPosition(codec, digest);
    if FindStarknetBlock(codec, digest).Ok? {
      var l := Logs(codec, digest, MADARA_ENGINE_ID)[0];
      assert l in Logs(codec, digest, MADARA_ENGINE_ID);
      var k :| k in LogPositions(codec, digest) && TryTo(codec, digest[k], MADARA_ENGINE_ID) == Some(l);
      Singleton(LogPositions(codec, digest), k);
    }
  }

  lemma Singleton<T>(s: set<T>, x: T)
    requires |s| == 1 && x in s
    ensures s == {x}
  {
    assert |s - {x}| == 0;
  }
}
