/** The digits and capital letters that command literals are made of, as
    bytes, so that a literal such as `"PING"u8` is written `[P, I, N, G]`. */
module Letters {
  import opened Bytes

  const A: byte := 0x41
  const B: byte := 0x42
  const C: byte := 0x43
  const E: byte := 0x45
  const G: byte := 0x47
  const H: byte := 0x48
  const I: byte := 0x49
  const J: byte := 0x4A
  const L: byte := 0x4C
  const M: byte := 0x4D
  const N: byte := 0x4E
  const O: byte := 0x4F
  const P: byte := 0x50
  const R: byte := 0x52
  const S: byte := 0x53
  const T: byte := 0x54
  const U: byte := 0x55
  const V: byte := 0x56
  const W: byte := 0x57
  const X: byte := 0x58

  const D0: byte := 0x30  // '0'
  const D1: byte := 0x31  // '1'
  const D2: byte := 0x32  // '2'
  const D3: byte := 0x33  // '3'
  const D4: byte := 0x34  // '4'
  const D5: byte := 0x35  // '5'
  const D6: byte := 0x36  // '6'
  const D7: byte := 0x37  // '7'
}
