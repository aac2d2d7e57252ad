/** Datatypes and machine-integer helpers shared by every part of the model. */
module Common {

  const KB4: nat := 0x1000
  const MEG1: nat := 0x10_0000
  const TWO64: nat := 0x1_0000_0000_0000_0000

  datatype Option<+T> = None | Some(value: T)

  /** The value a `uint8_t` variable holds after being assigned `x`. */
  function Byte(x: nat): (r: nat)
    ensures r < 256
    ensures x < 256 ==> r == x
  {
    x % 256
  }
}
