/** Key points of a race (LevelManagement/KeyPoint.cs): the start, the
    checkpoints by index and the finish, ordered in that order, and the
    level-manager call a car's entry into one of them makes. */
module KeyPoints {
  import opened Wire

  datatype KeyPointType = Start | Checkpoint | Finish

  /** The enum value of a type. */
  function TypeValue(t: KeyPointType): (v: int)
    ensures 0 <= v <= 2
  {
    match t
    case Start => 0
    case Checkpoint => 1
    case Finish => 2
  }

  predicate IsInt32(n: int)
  {
    -0x8000_0000 <= n < 0x8000_0000
  }

  /** A key point; `checkpointIndex` is a C# int. */
  datatype KeyPoint = KeyPoint(kind: KeyPointType, checkpointIndex: int)

  /** C# int subtraction: the difference wrapped into 32 bits. */
  function Wrap32(n: int): (w: int)
    ensures IsInt32(w)
    ensures IsInt32(n) ==> w == n
  {
    (n + 0x8000_0000) % 0x1_0000_0000 - 0x8000_0000
  }

  /** CompareTo as written: the difference of the types, else the wrapped
      difference of the indices. */
  function CompareToAsWritten(a: KeyPoint, b: KeyPoint): (r: int)
    ensures IsInt32(r)
    ensures a.kind != b.kind ==> (r < 0 <==> TypeValue(a.kind) < TypeValue(b.kind))
    ensures a.kind == b.kind && IsInt32(a.checkpointIndex - b.checkpointIndex) ==>
              (r < 0 <==> a.checkpointIndex < b.checkpointIndex) && (r == 0 <==> a == b)
  {
    if a.kind != b.kind then TypeValue(a.kind) - TypeValue(b.kind)
    else Wrap32(a.checkpointIndex - b.checkpointIndex)
  }

  /** Far-apart indices wrap, and then two points both compare below each
      other: index 0 against index int.MinValue. */
  lemma WrappedCompareNotAntisymmetric()
    ensures var a, b := KeyPoint(Checkpoint, 0), KeyPoint(Checkpoint, -0x8000_0000);
            CompareToAsWritten(a, b) < 0 && CompareToAsWritten(b, a) < 0
  {
  }

  /** The ordering CompareTo is meant to give, with the index difference
      taken without overflow. */
  function CompareTo(a: KeyPoint, b: KeyPoint): (r: int)
    ensures a.kind != b.kind ==> (r < 0 <==> TypeValue(a.kind) < TypeValue(b.kind)) && r != 0
    ensures a.kind == b.kind ==> (r < 0 <==> a.checkpointIndex < b.checkpointIndex) && (r == 0 <==> a == b)
  {
    if a.kind != b.kind then TypeValue(a.kind) - TypeValue(b.kind)
    else a.checkpointIndex - b.checkpointIndex
  }

  /** Where the indices are close enough not to wrap, the code as written
      gives the intended result. */
  lemma AsWrittenAgreesInRange(a: KeyPoint, b: KeyPoint)
    requires IsInt32(a.checkpointIndex - b.checkpointIndex)
    ensures CompareToAsWritten(a, b) == CompareTo(a, b)
  {
  }

  /** The order is lexicographic on the type, then the index. */
  predicate Before(a: KeyPoint, b: KeyPoint)
  {
    TypeValue(a.kind) < TypeValue(b.kind) ||
    (a.kind == b.kind && a.checkpointIndex < b.checkpointIndex)
  }

  lemma CompareSign(a: KeyPoint, b: KeyPoint)
    ensures CompareTo(a, b) < 0 <==> Before(a, b)
    ensures CompareTo(a, b) == 0 <==> a == b
    ensures CompareTo(a, b) > 0 <==> Before(b, a)
  {
  }

  lemma CompareAntisymmetric(a: KeyPoint, b: KeyPoint)
    ensures CompareTo(a, a) == 0
    ensures CompareTo(a, b) == -CompareTo(b, a)
  {
  }

  lemma CompareTransitive(a: KeyPoint, b: KeyPoint, c: KeyPoint)
    requires CompareTo(a, b) < 0 && CompareTo(b, c) < 0
    ensures CompareTo(a, c) < 0
  {
    CompareSign(a, b);
    CompareSign(b, c);
    CompareSign(a, c);
  }

  /** The collider that enters: without a rigidbody the lookup throws;
      `car` is the entering car's index, if the body is a car. */
  datatype Collider = NoRigidbody | Body(car: Option<nat>)

  /** The level-manager call OnTriggerEnter makes. */
  datatype Dispatch = HandleFinish(car: nat) | HandleCheckpoint(car: nat, checkpointIndex: int) | NoCall | Thrown

  function OnTriggerEnter(p: KeyPoint, other: Collider): (d: Dispatch)
    ensures d == Thrown <==> other == NoRigidbody
    ensures d.HandleFinish? <==> other.Body? && other.car.Some? && p.kind == Finish
    ensures d.HandleCheckpoint? <==> other.Body? && other.car.Some? && p.kind == Checkpoint
    ensures d.HandleFinish? ==> d.car == other.car.value
    ensures d.HandleCheckpoint? ==> d.car == other.car.value && d.checkpointIndex == p.checkpointIndex
  {
    match other
    case NoRigidbody => Thrown
    case Body(None) => NoCall
    case Body(Some(car)) =>
      match p.kind
      case Finish => HandleFinish(car)
      case Checkpoint => HandleCheckpoint(car, p.checkpointIndex)
      case Start => NoCall
  }
}
