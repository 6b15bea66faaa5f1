/**
 * The predicate value type of the ORM layer: a field name paired with a
 * comparison operator. Equality is the only operator there is.
 */
module OrmFilter {

  /** A comparison operator; only equality exists. */
  datatype Operator = Eq

  /** The operator's text in a statement. */
  function OperatorText(op: Operator): string {
    match op
    case Eq => "="
  }

  /** A comparison of one field against a bound value. */
  datatype Filter = Filter(fieldName: string, operator: Operator)

  function New(fieldName: string, operator: Operator): (f: Filter)
    ensures f.fieldName == fieldName
    ensures f.operator == operator
  {
    Filter(fieldName, operator)
  }

  function GetFieldName(f: Filter): string {
    f.fieldName
  }

  function GetOperator(f: Filter): Operator {
    f.operator
  }

  /** The getters give back what the constructor was given. */
  lemma GettersRoundTrip(fieldName: string, operator: Operator)
    ensures GetFieldName(New(fieldName, operator)) == fieldName
    ensures GetOperator(New(fieldName, operator)) == operator
  {
  }

  /** Equality is the only operator, so every filter's operator renders as `=`. */
  lemma EveryFilterRendersEquals(f: Filter)
    ensures OperatorText(GetOperator(f)) == "="
    ensures |OperatorText(GetOperator(f))| == 1
  {
  }
}
