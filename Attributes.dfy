/** The operator enumeration of `EntityFilterAttribute` (seven cases). */
module EntityFilterAttribute {
  datatype OperatorType =
    | Equal
    | NotEqual
    | GreaterThan
    | LessThan
    | GreaterThanOrEqual
    | LessThanOrEqual
    | Contains
}

/** The operator enumeration of the older `FilterWhereAttribute` (five cases). */
module FilterAttribute {
  datatype OperatorType =
    | Equal
    | EqualDate
    | GreaterThanOrEqual
    | LessThanOrEqual
    | Contains
}
