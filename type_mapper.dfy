/**
 * The type mapper: the source language's data-type tags and the IR type
 * each one lowers to (getIntType, getLLVMType, isFloatingType).
 */
module TypeMapper {
  import opened Wrappers
  import opened IR

  /** The data-type tags of the source language, in the order the mapper's switch lists them. */
  datatype DataType =
    | Int128Type | UInt128Type
    | Int64Type | UInt64Type
    | Int32Type | UInt32Type
    | Int16Type | UInt16Type
    | Int8Type | UInt8Type
    | Float128Type | Float64Type | Float32Type
    | IntType
    | BoolType
    | ByteType
    | CharType
    | VoidType
    | UnknownType

  /** getIntType: the native integer follows the host's `sizeof(int)`, with 16 bits as the fallback. */
  function NativeIntType(sizeofInt: int): (t: IRType)
    ensures t.Int? && t.width in {16, 32, 64}
    ensures sizeofInt in {2, 4, 8} ==> t.width == 8 * sizeofInt
    ensures sizeofInt !in {2, 4, 8} ==> t == Int(16)
  {
    match sizeofInt
    case 2 => Int(16)
    case 4 => Int(32)
    case 8 => Int(64)
    case _ => Int(16)
  }

  /** getLLVMType: every tag but the unknown one has a type; none of them is a pointer or an array. */
  function LLVMType(t: DataType, sizeofInt: int): (r: TypeRef)
    ensures r.None? <==> t == UnknownType
    ensures r.Some? ==> !r.value.Ptr? && !r.value.Array?
  {
    match t
    case Int128Type | UInt128Type => Some(Int(128))
    case Int64Type | UInt64Type => Some(Int(64))
    case Int32Type | UInt32Type => Some(Int(32))
    case Int16Type | UInt16Type => Some(Int(16))
    case Int8Type | UInt8Type => Some(Int(8))
    case Float128Type => Some(FP128)
    case Float64Type => Some(Double)
    case Float32Type => Some(Float)
    case IntType => Some(NativeIntType(sizeofInt))
    case BoolType => Some(Int(1))
    case ByteType => Some(Int(1))
    case CharType => Some(Int(8))
    case VoidType => Some(Void)
    case UnknownType => None
  }

  /** isFloatingType: the float, 128-bit float and double type kinds, and no other type. */
  predicate IsFloatingType(t: IRType): (r: bool)
    ensures r <==> t in {Float, FP128, Double}
    ensures r ==> !t.Int? && !t.Ptr? && !t.Array? && t != Void
  {
    match t
    case Float | FP128 | Double => true
    case _ => false
  }

  /** The widths for which the language has a signed and an unsigned tag. */
  const FixedWidths: set<nat> := {8, 16, 32, 64, 128}

  function SignedTag(w: nat): DataType
    requires w in FixedWidths
  {
    match w
    case 8 => Int8Type
    case 16 => Int16Type
    case 32 => Int32Type
    case 64 => Int64Type
    case _ => Int128Type
  }

  function UnsignedTag(w: nat): DataType
    requires w in FixedWidths
  {
    match w
    case 8 => UInt8Type
    case 16 => UInt16Type
    case 32 => UInt32Type
    case 64 => UInt64Type
    case _ => UInt128Type
  }

  /** A signed tag and the unsigned tag of the same width lower to one and the same integer type. */
  lemma SignedAndUnsignedShareWidth(w: nat, sizeofInt: int)
    requires w in FixedWidths
    ensures LLVMType(SignedTag(w), sizeofInt) == Some(Int(w))
    ensures LLVMType(UnsignedTag(w), sizeofInt) == Some(Int(w))
  {
  }

  /** Bool and byte are both one-bit integers; char is an 8-bit integer. */
  lemma BoolByteAndCharWidths(sizeofInt: int)
    ensures LLVMType(BoolType, sizeofInt) == Some(Int(1))
    ensures LLVMType(ByteType, sizeofInt) == Some(Int(1))
    ensures LLVMType(CharType, sizeofInt) == Some(Int(8))
  {
  }

  /** The native integer tag follows `sizeof(int)`: 16/32/64 bits for 2/4/8 bytes, 16 bits otherwise. */
  lemma NativeIntWidth(sizeofInt: int)
    ensures LLVMType(IntType, sizeofInt) == Some(NativeIntType(sizeofInt))
    ensures sizeofInt == 2 ==> NativeIntType(sizeofInt) == Int(16)
    ensures sizeofInt == 4 ==> NativeIntType(sizeofInt) == Int(32)
    ensures sizeofInt == 8 ==> NativeIntType(sizeofInt) == Int(64)
    ensures sizeofInt !in {2, 4, 8} ==> NativeIntType(sizeofInt) == Int(16)
  {
  }

  /** Exactly the three float tags lower to a type that isFloatingType accepts. */
  lemma FloatingExactlyForFloatTags(t: DataType, sizeofInt: int)
    ensures (LLVMType(t, sizeofInt).Some? && IsFloatingType(LLVMType(t, sizeofInt).value))
        <==> t in {Float32Type, Float64Type, Float128Type}
  {
  }

  /** The float tags lower to float, double and fp128 by width, and the void tag to void. */
  lemma FloatAndVoidTypes(sizeofInt: int)
    ensures LLVMType(Float32Type, sizeofInt) == Some(Float)
    ensures LLVMType(Float64Type, sizeofInt) == Some(Double)
    ensures LLVMType(Float128Type, sizeofInt) == Some(FP128)
    ensures LLVMType(VoidType, sizeofInt) == Some(Void)
  {
  }

  /** Apart from the native integer tag, the mapping does not depend on the host's `sizeof(int)`. */
  lemma OnlyNativeIntDependsOnHost(t: DataType, n1: int, n2: int)
    requires t != IntType
    ensures LLVMType(t, n1) == LLVMType(t, n2)
  {
  }
}
