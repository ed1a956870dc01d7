/** Entry points of legacy contract classes: the two representations and the conversions between them. */
module EntryPoints {
  import opened Primitives
  import opened Bytes

  datatype EntryPointType = Constructor | External | L1Handler

  /** A selector as 32 raw bytes, read as a number; it need not be a field element. */
  type Selector = n: nat | n < 0x1_0000_0000_0000_0000_0000_0000_0000_0000_0000_0000_0000_0000_0000_0000_0000_0000

  datatype EntryPoint = EntryPoint(selector: Selector, offset: nat)

  datatype LegacyEntryPoint = LegacyEntryPoint(selector: FieldElement, offset: nat)

  datatype LegacyEntryPointsByType = LegacyEntryPointsByType(
    constructors: seq<LegacyEntryPoint>,
    external: seq<LegacyEntryPoint>,
    l1Handler: seq<LegacyEntryPoint>)

  datatype ConversionError = MissingEntryPoints | InvalidSelector

  // ----- Single entry points

  function FromLegacy(e: LegacyEntryPoint): EntryPoint {
    EntryPoint(e.selector, e.offset)
  }

  function ToLegacy(e: EntryPoint): Result<LegacyEntryPoint, ConversionError> {
    if e.selector < PRIME then Ok(LegacyEntryPoint(e.selector, e.offset)) else Err(InvalidSelector)
  }

  function AllFromLegacy(es: seq<LegacyEntryPoint>): (r: seq<EntryPoint>)
    ensures |r| == |es| && forall k | 0 <= k < |es| :: r[k] == FromLegacy(es[k])
  {
    seq(|es|, k requires 0 <= k < |es| => FromLegacy(es[k]))
  }

  /** All of them, or the first error. */
  function AllToLegacy(es: seq<EntryPoint>): Result<seq<LegacyEntryPoint>, ConversionError> {
    if es == [] then Ok([])
    else match ToLegacy(es[0])
      case Err(e) => Err(e)
      case Ok(first) =>
        match AllToLegacy(es[1..])
        case Err(e) => Err(e)
        case Ok(rest) => Ok([first] + rest)
  }

  // ----- Grouped by type

  type EntryPointMap = map<EntryPointType, seq<EntryPoint>>

  function ListOf(l: LegacyEntryPointsByType, t: EntryPointType): seq<LegacyEntryPoint> {
    match t
    case Constructor => l.constructors
    case External => l.external
    case L1Handler => l.l1Handler
  }

  /** A type without entry points gets no list at all. */
  function Grouped(l: LegacyEntryPointsByType): EntryPointMap {
    map t: EntryPointType | t in {Constructor, External, L1Handler} && ListOf(l, t) != [] :: AllFromLegacy(ListOf(l, t))
  }

  /** The types in the order in which their lists are begun. */
  function GroupOrder(l: LegacyEntryPointsByType): seq<EntryPointType> {
    (if l.constructors == [] then [] else [Constructor])
    + (if l.external == [] then [] else [External])
    + (if l.l1Handler == [] then [] else [L1Handler])
  }

  function Pushed(m: EntryPointMap, t: EntryPointType, e: EntryPoint): EntryPointMap {
    m[t := (if t in m then m[t] else []) + [e]]
  }

  /** A map with one more list, unless that is empty. */
  function WithList(m: EntryPointMap, t: EntryPointType, es: seq<LegacyEntryPoint>): EntryPointMap {
    if es == [] then m else m[t := AllFromLegacy(es)]
  }

  lemma GroupedStepwise(l: LegacyEntryPointsByType)
    ensures Grouped(l)
         == WithList(WithList(WithList(map[], Constructor, l.constructors), External, l.external),
                     L1Handler, l.l1Handler)
  {
  }

  /** Pushes the entry points one by one, type after type. The result is an ordered map. */
  method GroupByType(l: LegacyEntryPointsByType) returns (m: EntryPointMap, order: seq<EntryPointType>)
    ensures m == Grouped(l)
    ensures order == GroupOrder(l)
  {
    m, order := map[], [];
    m, order := PushAll(m, order, Constructor, l.constructors);
    m, order := PushAll(m, order, External, l.external);
    m, order := PushAll(m, order, L1Handler, l.l1Handler);
    GroupedStepwise(l);
  }

  method PushAll(m0: EntryPointMap, order0: seq<EntryPointType>, t: EntryPointType, es: seq<LegacyEntryPoint>)
    returns (m: EntryPointMap, order: seq<EntryPointType>)
    requires t !in m0
    ensures m == WithList(m0, t, es)
    ensures order == order0 + (if es == [] then [] else [t])
  {
    m, order := m0, order0;
    var i := 0;
    while i < |es|
      invariant 0 <= i <= |es|
      invariant m == if i == 0 then m0 else m0[t := AllFromLegacy(es[..i])]
      invariant order == order0 + (if i == 0 then [] else [t])
    {
      assert AllFromLegacy(es[..i + 1]) == AllFromLegacy(es[..i]) + [FromLegacy(es[i])];
      if t !in m {
        order := order + [t];
      }
      m := Pushed(m, t, FromLegacy(es[i]));
      i := i + 1;
    }
    assert es[..i] == es;
  }

  function Collect(m: EntryPointMap, t: EntryPointType): Result<seq<LegacyEntryPoint>, ConversionError> {
    if t in m then AllToLegacy(m[t]) else Err(MissingEntryPoints)
  }

  function OrEmpty(r: Result<seq<LegacyEntryPoint>, ConversionError>): seq<LegacyEntryPoint> {
    match r
    case Ok(es) => es
    case Err(_) => []
  }

  /** Only external entry points are required; an error in the other lists leaves them empty. */
  function Ungrouped(m: EntryPointMap): Result<LegacyEntryPointsByType, ConversionError> {
    match Collect(m, External)
    case Err(e) => Err(e)
    case Ok(external) =>
      Ok(LegacyEntryPointsByType(OrEmpty(Collect(m, Constructor)), external, OrEmpty(Collect(m, L1Handler))))
  }

  // ----- There and back

  lemma {:induction false} AllThereAndBack(es: seq<LegacyEntryPoint>)
    ensures AllToLegacy(AllFromLegacy(es)) == Ok(es)
  {
    if es != [] {
      assert AllFromLegacy(es)[1..] == AllFromLegacy(es[1..]);
      AllThereAndBack(es[1..]);
      assert es == [es[0]] + es[1..];
    }
  }

  /** Grouping and ungrouping gives the original lists back exactly if there is an external entry point. */
  lemma GroupedAndBack(l: LegacyEntryPointsByType)
    ensures l.external != [] ==> Ungrouped(Grouped(l)) == Ok(l)
    ensures l.external == [] ==> Ungrouped(Grouped(l)) == Err(MissingEntryPoints)
  {
    AllThereAndBack(l.constructors);
    AllThereAndBack(l.external);
    AllThereAndBack(l.l1Handler);
  }

  predicate AllValid(es: seq<EntryPoint>) {
    forall k | 0 <= k < |es| :: es[k].selector < PRIME
  }

  lemma {:induction false} AllBackAndThere(es: seq<EntryPoint>)
    ensures AllToLegacy(es).Ok? <==> AllValid(es)
    ensures AllToLegacy(es).Ok? ==> AllFromLegacy(AllToLegacy(es).value) == es
  {
    if es != [] {
      AllBackAndThere(es[1..]);
      assert forall k | 0 <= k < |es[1..]| :: es[1..][k] == es[k + 1];
      if AllToLegacy(es).Ok? {
        var r, rest := AllToLegacy(es).value, AllToLegacy(es[1..]).value;
        assert AllFromLegacy(r) == [FromLegacy(r[0])] + AllFromLegacy(rest);
        assert es == [es[0]] + es[1..];
      }
      if AllValid(es[1..]) && es[0].selector < PRIME {
        forall k | 0 <= k < |es| ensures es[k].selector < PRIME {
          assert k > 0 ==> es[1..][k - 1] == es[k];
        }
      }
    }
  }

  lemma GroupedAt(l: LegacyEntryPointsByType, t: EntryPointType)
    ensures t in Grouped(l) <==> ListOf(l, t) != []
    ensures t in Grouped(l) ==> Grouped(l)[t] == AllFromLegacy(ListOf(l, t))
  {
  }

  predicate Restorable(es: seq<EntryPoint>) {
    es != [] && AllValid(es)
  }

  /** One type: its list survives the way back and there exactly if it is non-empty and valid. */
  lemma RestoredAt(m: EntryPointMap, t: EntryPointType)
    requires Ungrouped(m).Ok?
    ensures t !in m ==> ListOf(Ungrouped(m).value, t) == []
    ensures t in m ==> (Restorable(m[t]) <==>
      ListOf(Ungrouped(m).value, t) != [] && AllFromLegacy(ListOf(Ungrouped(m).value, t)) == m[t])
  {
    assert ListOf(Ungrouped(m).value, t) == OrEmpty(Collect(m, t));
    if t in m {
      AllBackAndThere(m[t]);
    }
  }

  /** The other way round, it is the original map again exactly if no list is empty and no selector is out of range. */
  lemma UngroupedAndBack(m: EntryPointMap)
    requires External in m
    ensures Ungrouped(m).Ok? && Grouped(Ungrouped(m).value) == m <==> forall t | t in m :: Restorable(m[t])
  {
    AllBackAndThere(m[External]);
    if Ungrouped(m).Ok? {
      var l := Ungrouped(m).value;
      forall t: EntryPointType
        ensures t in m && Restorable(m[t]) <==> t in m && t in Grouped(l) && Grouped(l)[t] == m[t]
        ensures t !in m ==> t !in Grouped(l)
      {
        RestoredAt(m, t);
        GroupedAt(l, t);
      }
    } else {
      assert !Restorable(m[External]);
    }
  }
}
