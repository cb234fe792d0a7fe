/** The character classifier declared in include/strutils.h. */
module StrUtils {
  import opened CRuntime

  /** The bytes a numeric run may contain: both signs, the decimal digits,
      the decimal point and both exponent markers. */
  const NUMERIC_BYTES: set<Byte> :=
    {'-', '+', '0', '1', '2', '3', '4', '5', '6', '7', '8', '9', '.', 'e', 'E'}

  /** `is_numeric`: 1 for a byte that can appear in a number, 0 for any other. */
  function IsNumeric(token: Byte): (r: int)
    ensures r == 0 || r == 1
    ensures r == 1 <==> token in NUMERIC_BYTES
  {
    if token == '-' || token == '+' then 1
    else if '0' <= token <= '9' then 1
    else if token == '.' then 1
    else if token == 'e' || token == 'E' then 1
    else 0
  }
}
