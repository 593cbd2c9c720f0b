/** The exceptions the modelled helpers can throw, named after the .NET types
    and carrying the parameter name the thrower reports (empty when it
    reports none). */
module Exceptions {

  datatype Exception =
    | ArgumentNullException(paramName: string)
    | ArgumentOutOfRangeException(paramName: string)
    | ArgumentException(paramName: string)
    | NullReferenceException
}
