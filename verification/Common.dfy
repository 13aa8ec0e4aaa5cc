/** Types that several components share. */
module Common {
  datatype Option<+T> = None | Some(value: T)

  /** A byte of a C string. */
  type Byte = c: char | c as int < 256 witness '\0'

  type Text = seq<Byte>

  predicate IsHex(c: Byte) { '0' <= c <= '9' || 'a' <= c <= 'f' || 'A' <= c <= 'F' }

  function FromHex(c: Byte): (n: nat)
    requires IsHex(c)
    ensures n < 16
  {
    if c >= 'a' then c as int - 'a' as int + 10 else if c >= 'A' then c as int - 'A' as int + 10 else c as int - '0' as int
  }

  /** A text as C keeps it, with a NUL at its end. */
  predicate Terminated(t: Text) { |t| > 0 && t[|t| - 1] == '\0' }
}
