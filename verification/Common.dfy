/** Machine integers and the option type shared by every part of the model. */
module Common {
  datatype Option<+T> = None | Some(value: T)

  const U64_MAX: int := 0xFFFF_FFFF_FFFF_FFFF
  const U64_SIZE: int := 0x1_0000_0000_0000_0000

  type u64 = x: int | 0 <= x < 0x1_0000_0000_0000_0000

  /** Addition as the release build performs it: overflow checks are off, so it wraps. */
  function WrapAdd(x: u64, y: u64): (r: u64)
    ensures x + y <= U64_MAX ==> r == x + y
  {
    if x + y < U64_SIZE then x + y else x + y - U64_SIZE
  }

  /** An unbounded sum as a word that was added up one wrapping addition at a time. */
  function Word(x: nat): (r: u64)
    ensures x <= U64_MAX ==> r == x
  {
    x % U64_SIZE
  }

  lemma AddToWord(x: nat, y: u64)
    ensures WrapAdd(Word(x), y) == Word(x + y)
  {
  }

  /** Subtraction as the release build performs it. */
  function WrapSub(x: u64, y: u64): (r: u64)
    ensures y <= x ==> r == x - y
  {
    if y <= x then x - y else x - y + U64_SIZE
  }

  function SaturatingAdd(x: u64, y: u64): (r: u64)
    ensures x + y <= U64_MAX ==> r == x + y
    ensures r >= x && r >= y
  {
    if x + y <= U64_MAX then x + y else U64_MAX
  }

  function SaturatingSub(x: u64, y: u64): (r: u64)
    ensures y <= x ==> r == x - y
    ensures y > x ==> r == 0
  {
    if y <= x then x - y else 0
  }

  function Min(x: int, y: int): (r: int)
    ensures r <= x && r <= y && (r == x || r == y)
  {
    if x <= y then x else y
  }
}
