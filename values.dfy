// The tagged runtime value of src/value.h.
module Values {

  /** A double-precision number, kept uninterpreted: the model never
      evaluates floating point, it only records which operation produced a
      number from which operands. */
  datatype Number =
    | Literal(id: int)            // a number written in the program text
    | Zero                        // the payload NIL_VAL stores
    | BoolBits(b: bool)           // the union read as a number while it holds a bool
    | Add(left: Number, right: Number)
    | Sub(left: Number, right: Number)
    | Mul(left: Number, right: Number)
    | Div(left: Number, right: Number)
    | Neg(operand: Number)

  /** The `type` tag of a value. */
  datatype ValueType = ValBool | ValNil | ValNumber

  /** BOOL_VAL(b), NIL_VAL and NUMBER_VAL(x). */
  datatype Value =
    | BoolVal(boolean: bool)
    | NilVal
    | NumberVal(number: Number)

  function TypeOf(v: Value): ValueType {
    match v
    case BoolVal(_) => ValBool
    case NilVal => ValNil
    case NumberVal(_) => ValNumber
  }

  predicate IsBool(v: Value) { TypeOf(v) == ValBool }
  predicate IsNil(v: Value) { TypeOf(v) == ValNil }
  predicate IsNumber(v: Value) { TypeOf(v) == ValNumber }

  /** AS_BOOL: the union's boolean member; only ever applied to bool values. */
  function AsBool(v: Value): bool
    requires IsBool(v)
  {
    v.boolean
  }

  /** AS_NUMBER: the union's number member. The source applies it without
      looking at the tag, so a nil yields the zero NIL_VAL stores and a bool
      yields the bool's bytes read as a number. */
  function AsNumber(v: Value): (x: Number)
    ensures IsNumber(v) ==> NumberVal(x) == v
    ensures IsNil(v) ==> x == Zero
  {
    match v
    case NumberVal(n) => n
    case NilVal => Zero
    case BoolVal(b) => BoolBits(b)
  }

  /** Each constructor carries its own tag, and unpacking gives back what
      was packed. */
  lemma ConstructorsRoundTrip(b: bool, x: Number)
    ensures IsBool(BoolVal(b)) && AsBool(BoolVal(b)) == b
    ensures IsNil(NilVal)
    ensures IsNumber(NumberVal(x)) && AsNumber(NumberVal(x)) == x
  {
  }

  /** Exactly one of IS_BOOL, IS_NIL and IS_NUMBER holds of any value. */
  lemma TagsPartition(v: Value)
    ensures IsBool(v) || IsNil(v) || IsNumber(v)
    ensures !(IsBool(v) && IsNil(v)) && !(IsBool(v) && IsNumber(v)) && !(IsNil(v) && IsNumber(v))
  {
  }
}
