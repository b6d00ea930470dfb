/** The string-length exercise. A Go string is a sequence of bytes (its UTF-8
  * encoding), and `len` counts those bytes, so the model works on bytes. */
module CountString {

  newtype byte = x: int | 0 <= x < 256

  /** A Go error value: nil, or an error carrying its message. */
  datatype GoError = Nil | Error(message: string)

  /** The one string the function refuses: a single space (byte 32). */
  const Space: seq<byte> := [32]

  const EmptyMessage := "String está vazia"

  /** The length of `s` in bytes, with an error for the single-space string
    * only; the empty string is counted, as 0, without an error. */
  function CountString(s: seq<byte>): (r: (int, GoError))
    ensures r.0 >= 0
    ensures r.1 != Nil <==> s == Space
    ensures s == Space ==> r == (0, Error(EmptyMessage))
    ensures s != Space ==> r == (|s|, Nil)
    ensures s == [] ==> r == (0, Nil)
  {
    if s == Space then (0, Error(EmptyMessage)) else (|s|, Nil)
  }
}
