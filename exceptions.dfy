/** The exceptions that the census core can raise, as one error value. */
module Exceptions {

  datatype CensusError =
      /** InvalidArgumentException: a population setter was given a value that
          breaks child <= total or poverty <= child; carries the total, the
          resulting child population and the resulting child poverty population. */
    | InvalidArgument(total: int, child: int, poverty: int)
      /** NumberFormatException from Integer.parseInt, with the rejected text. */
    | NumberFormat(text: string)
      /** StringIndexOutOfBoundsException from String.substring. */
    | StringIndexOutOfBounds(begin: int, end: int, length: int)
      /** ArrayIndexOutOfBoundsException: a store past the end of an array. */
    | ArrayIndexOutOfBounds(index: int, length: int)
}
