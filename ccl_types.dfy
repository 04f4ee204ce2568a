/** get_ccl_datatype and get_ccl_reduce_op: how a tensor's element type and
    a Python ReduceOp are translated for the collective library. */
module CclTypes {

  /** c10::ScalarType, the element types a tensor can have. */
  datatype ScalarType =
    | Byte | Char | Short | Int | Long | Half | Float | Double
    | ComplexHalf | ComplexFloat | ComplexDouble | Bool
    | QInt8 | QUInt8 | QInt32 | BFloat16

  /** The collective library's element types that the mapping produces. */
  datatype CclDatatype = Int8 | Int32 | Float16 | Float32 | Float64 | BFloat16Ccl

  /** Bytes per element of a tensor type. */
  function ScalarBytes(t: ScalarType): nat {
    match t
    case Byte => 1
    case Char => 1
    case Short => 2
    case Int => 4
    case Long => 8
    case Half => 2
    case Float => 4
    case Double => 8
    case ComplexHalf => 4
    case ComplexFloat => 8
    case ComplexDouble => 16
    case Bool => 1
    case QInt8 => 1
    case QUInt8 => 1
    case QInt32 => 4
    case BFloat16 => 2
  }

  /** Bytes per element of a library type. */
  function CclBytes(d: CclDatatype): nat {
    match d
    case Int8 => 1
    case Int32 => 4
    case Float16 => 2
    case Float32 => 4
    case Float64 => 8
    case BFloat16Ccl => 2
  }

  /** The five types the switch names. */
  predicate Named(t: ScalarType) {
    t == Int || t == Float || t == Double || t == BFloat16 || t == Half
  }

  /** get_ccl_datatype: Int, Float, Double, BFloat16 and Half map to the
      library type of the same kind; every other type falls to int8. */
  function GetCclDatatype(t: ScalarType): (d: CclDatatype)
    ensures t == Int <==> d == Int32
    ensures t == Float <==> d == Float32
    ensures t == Double <==> d == Float64
    ensures t == BFloat16 <==> d == BFloat16Ccl
    ensures t == Half <==> d == Float16
    ensures !Named(t) <==> d == Int8
  {
    match t
    case Int => Int32
    case Float => Float32
    case Double => Float64
    case BFloat16 => BFloat16Ccl
    case Half => Float16
    case _ => Int8
  }

  /** The element count handed to the library covers the tensor's bytes
      exactly for the five named types and for the one-byte types (Bool is
      carried as bytes); for every wider unnamed type, such as Long, it
      covers only part of the tensor. */
  lemma DatatypeKeepsWidth(t: ScalarType)
    ensures CclBytes(GetCclDatatype(t)) == ScalarBytes(t) <==> Named(t) || ScalarBytes(t) == 1
  {
  }

  /** deepspeed.comm.ReduceOp, in declaration order. */
  datatype ReduceOp = SUM | PRODUCT | MIN | MAX | BAND | BOR | BXOR | AVG | UNUSED

  /** The Python object passed as `op`: a ReduceOp member or anything else. */
  datatype PyOp = ReduceOpValue(op: ReduceOp) | NotReduceOp

  /** The library's reductions. */
  datatype Reduction = Sum | Prod | Min | Max

  /** The runtime_error messages get_ccl_reduce_op can throw. */
  datatype OpError = OpNotReduceOp | BoolTensorOp | UnrecognizedOp

  datatype Result<T> = Ok(value: T) | Err(error: OpError)

  /** The first if-chain, for bool tensors: SUM would become max and AVG is
      rejected. Its max is never used: the second chain assigns again. */
  function BoolPass(v: ReduceOp, t: ScalarType): (r: Result<Reduction>)
    ensures r.Err? <==> t == Bool && v == AVG
  {
    if t == Bool && v == SUM then Ok(Max)
    else if t == Bool && v == AVG then Err(BoolTensorOp)
    else Ok(Sum)
  }

  /** get_ccl_reduce_op: SUM, MIN, MAX and PRODUCT map to sum, min, max and
      prod whatever the tensor type; AVG on a bool tensor is the bool error,
      any other op is unrecognized, and a non-ReduceOp is rejected first. */
  function GetCclReduceOp(op: PyOp, t: ScalarType): (r: Result<Reduction>)
    ensures op.NotReduceOp? ==> r == Err(OpNotReduceOp)
    ensures op.ReduceOpValue? && op.op == SUM ==> r == Ok(Sum)
    ensures op.ReduceOpValue? && op.op == MIN ==> r == Ok(Min)
    ensures op.ReduceOpValue? && op.op == MAX ==> r == Ok(Max)
    ensures op.ReduceOpValue? && op.op == PRODUCT ==> r == Ok(Prod)
    ensures op.ReduceOpValue? && op.op == AVG ==> r == Err(if t == Bool then BoolTensorOp else UnrecognizedOp)
    ensures op.ReduceOpValue? && op.op in {BAND, BOR, BXOR, UNUSED} ==> r == Err(UnrecognizedOp)
  {
    match op
    case NotReduceOp => Err(OpNotReduceOp)
    case ReduceOpValue(v) =>
      match BoolPass(v, t)
      case Err(e) => Err(e)
      case Ok(_) =>
        if v == SUM then Ok(Sum)
        else if v == MIN then Ok(Min)
        else if v == MAX then Ok(Max)
        else if v == PRODUCT then Ok(Prod)
        else Err(UnrecognizedOp)
  }

  /** The ReduceOp member each reduction comes from. */
  function ReduceOpOf(c: Reduction): ReduceOp {
    match c
    case Sum => SUM
    case Prod => PRODUCT
    case Min => MIN
    case Max => MAX
  }

  /** Round trip: every reduction is reached from its ReduceOp member, for
      every tensor type, bool included. */
  lemma ReduceOpRoundTrip(c: Reduction, t: ScalarType)
    ensures GetCclReduceOp(ReduceOpValue(ReduceOpOf(c)), t) == Ok(c)
  {
  }

  /** And back: whatever op is accepted, it is the member of its reduction;
      so distinct accepted ops give distinct reductions. */
  lemma AcceptedOpIsItsReduction(op: PyOp, t: ScalarType)
    requires GetCclReduceOp(op, t).Ok?
    ensures op == ReduceOpValue(ReduceOpOf(GetCclReduceOp(op, t).value))
  {
  }

  /** A bool tensor changes only which error AVG gets: the accepted ops and
      their reductions are the same as for any other type. */
  lemma BoolOnlyChangesAvgError(op: PyOp, t: ScalarType)
    ensures GetCclReduceOp(op, Bool).Ok? <==> GetCclReduceOp(op, t).Ok?
    ensures GetCclReduceOp(op, Bool).Ok? ==> GetCclReduceOp(op, Bool) == GetCclReduceOp(op, t)
    ensures GetCclReduceOp(op, Bool) != GetCclReduceOp(op, t) ==> op == ReduceOpValue(AVG) && t != Bool
  {
  }

  // ---------------------------------------------------------------------
  // Bool SUM: the first chain's max is overwritten by the second chain.
  // ---------------------------------------------------------------------

  /** As written, SUM on a bool tensor reaches the library as sum, not as
      the max the bool branch chose to keep one-byte sums from overflowing. */
  lemma BoolSumBecomesSum()
    ensures BoolPass(SUM, Bool) == Ok(Max)
    ensures GetCclReduceOp(ReduceOpValue(SUM), Bool) == Ok(Sum)
  {
  }

  /** The mapping as the bool branch intends it: SUM on a bool tensor is
      max (a bitwise or), everything else as get_ccl_reduce_op maps it. */
  function GetCclReduceOpIntended(op: PyOp, t: ScalarType): (r: Result<Reduction>)
    ensures op.NotReduceOp? ==> r == Err(OpNotReduceOp)
    ensures op.ReduceOpValue? && op.op == SUM ==> r == Ok(if t == Bool then Max else Sum)
    ensures op.ReduceOpValue? && op.op == MIN ==> r == Ok(Min)
    ensures op.ReduceOpValue? && op.op == MAX ==> r == Ok(Max)
    ensures op.ReduceOpValue? && op.op == PRODUCT ==> r == Ok(Prod)
    ensures op.ReduceOpValue? && op.op == AVG ==> r == Err(if t == Bool then BoolTensorOp else UnrecognizedOp)
    ensures op.ReduceOpValue? && op.op in {BAND, BOR, BXOR, UNUSED} ==> r == Err(UnrecognizedOp)
  {
    match op
    case NotReduceOp => Err(OpNotReduceOp)
    case ReduceOpValue(v) =>
      match BoolPass(v, t)
      case Err(e) => Err(e)
      case Ok(c) =>
        if t == Bool && v == SUM then Ok(c)
        else if v == SUM then Ok(Sum)
        else if v == MIN then Ok(Min)
        else if v == MAX then Ok(Max)
        else if v == PRODUCT then Ok(Prod)
        else Err(UnrecognizedOp)
  }

  /** The intended mapping never yields sum on a bool tensor, and it differs
      from the mapping as written exactly on bool SUM. */
  lemma IntendedDiffersOnlyOnBoolSum(op: PyOp, t: ScalarType)
    ensures t == Bool ==> GetCclReduceOpIntended(op, t) != Ok(Sum)
    ensures GetCclReduceOpIntended(op, t) != GetCclReduceOp(op, t) <==> t == Bool && op == ReduceOpValue(SUM)
  {
  }
}
