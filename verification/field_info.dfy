/**
 * The five storage classes of a generated frame field
 * (src/cadenza/frame/FieldInfo.kt): a one-letter signature code, the JVM
 * descriptor, and the kind flags. The bytecode emitters are not modelled.
 */
module FieldInfos {
  import opened Wrappers
  import opened Types
  import opened Values

  datatype FieldInfo = IntField | FloatField | ObjectField | LongField | DoubleField
  {
    /** `sig`. */
    function Sig(): char
    {
      match this
      case IntField => 'I'
      case FloatField => 'F'
      case ObjectField => 'O'
      case LongField => 'L'
      case DoubleField => 'D'
    }

    /** `signature`: the code as a string, except the object class descriptor for objects. */
    function Signature(): (s: string)
      ensures this == ObjectField ==> s == "Ljava/lang/Object;"
      ensures this != ObjectField ==> s == [Sig()]
    {
      if this == ObjectField then "Ljava/lang/Object;" else [Sig()]
    }

    predicate IsInteger() { this == IntField }
    predicate IsLong() { this == LongField }
    predicate IsFloat() { this == FloatField }
    predicate IsDouble() { this == DoubleField }
    predicate IsObject() { this == ObjectField }

    /** How many of the five flags hold. */
    function FlagCount(): nat
    {
      (if IsInteger() then 1 else 0) + (if IsLong() then 1 else 0) + (if IsFloat() then 1 else 0)
        + (if IsDouble() then 1 else 0) + (if IsObject() then 1 else 0)
    }
  }

  /** `of`: decode a signature code; any other character panics. */
  function Of(c: char): (r: Result<FieldInfo, Fault>)
    ensures r.Ok? <==> c in "IFOLD"
    ensures r.Ok? ==> r.value.Sig() == c
    ensures r.Err? ==> r.error == Panic("unknown field type")
  {
    match c
    case 'I' => Ok(IntField)
    case 'F' => Ok(FloatField)
    case 'O' => Ok(ObjectField)
    case 'L' => Ok(LongField)
    case 'D' => Ok(DoubleField)
    case _ => Err(Panic("unknown field type"))
  }

  /** `from`: the field class for a runtime value; everything but the four primitives is an object. */
  function From(v: Value): (r: FieldInfo)
    ensures r == IntField <==> v.VPrim? && v.p.PInt?
    ensures r == FloatField <==> v.VPrim? && v.p.PFloat?
    ensures r == LongField <==> v.VPrim? && v.p.PLong?
    ensures r == DoubleField <==> v.VPrim? && v.p.PDouble?
  {
    if v.VPrim? then
      match v.p
      case PInt(_) => IntField
      case PFloat(_) => FloatField
      case PLong(_) => LongField
      case PDouble(_) => DoubleField
      case _ => ObjectField
    else ObjectField
  }

  /** Decoding a field's own code gives the field back. */
  lemma {:induction false} OfSig(i: FieldInfo)
    ensures Of(i.Sig()) == Ok(i)
  {
  }

  /** Every field has exactly one flag, the one of its own kind. */
  lemma {:induction false} ExactlyOneFlag(i: FieldInfo)
    ensures i.FlagCount() == 1
    ensures i.IsInteger() <==> i.Sig() == 'I'
    ensures i.IsObject() <==> i.Signature() == "Ljava/lang/Object;"
  {
  }
}
