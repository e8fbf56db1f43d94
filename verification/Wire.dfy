/** Bytes, big-endian u16s, and the few sequence functions every other module uses. */
module Wire {

  type byte = x: int | 0 <= x < 0x100
  type u16 = x: int | 0 <= x < 0x1_0000
  type Bytes = seq<byte>

  datatype Option<+T> = None | Some(value: T)

  datatype Result<+T> = Ok(value: T) | Err(error: ProtocolError)

  /** The error cases of `ProtocolError` that the modelled code can return. */
  datatype ProtocolError =
    | TooShort(len: nat)
    | LengthMismatch(declared: nat, actual: nat)
    | BadCommand(offset: nat)

  function Min(a: int, b: int): int {
    if a <= b then a else b
  }

  function Max(a: int, b: int): int {
    if a <= b then b else a
  }

  function Hi(x: u16): byte {
    x / 0x100
  }

  function Lo(x: u16): byte {
    x % 0x100
  }

  /** `to_be_bytes` */
  function Be16(x: u16): (b: Bytes)
    ensures |b| == 2
  {
    [Hi(x), Lo(x)]
  }

  function FromBe16(hi: byte, lo: byte): u16 {
    hi * 0x100 + lo
  }

  lemma Be16RoundTrip(x: u16)
    ensures FromBe16(Hi(x), Lo(x)) == x
  {
  }

  lemma FromBe16RoundTrip(hi: byte, lo: byte)
    ensures Hi(FromBe16(hi, lo)) == hi && Lo(FromBe16(hi, lo)) == lo
  {
  }

  /** The concatenation of a sequence of sequences. */
  function Concat<T>(xs: seq<seq<T>>): seq<T> {
    if xs == [] then [] else xs[0] + Concat(xs[1..])
  }

  lemma SplitOfAppend<T>(a: seq<T>, b: seq<T>)
    ensures (a + b)[..|a|] == a
    ensures (a + b)[|a|..] == b
  {
  }

  lemma DropDrop<T>(s: seq<T>, i: nat, j: nat)
    requires i + j <= |s|
    ensures s[i..][j..] == s[i + j..]
  {
  }

  lemma TakeOfDrop<T>(s: seq<T>, i: nat, j: nat)
    requires i + j <= |s|
    ensures s[i..][..j] == s[i..i + j]
  {
  }

  lemma DropOfAppend<T>(a: seq<T>, b: seq<T>, i: nat)
    requires i <= |a|
    ensures (a + b)[i..] == a[i..] + b
  {
  }

  lemma Associative<T>(a: seq<T>, b: seq<T>, c: seq<T>)
    ensures a + (b + c) == (a + b) + c
  {
  }

  lemma {:induction false} ConcatAppend<T>(xs: seq<seq<T>>, ys: seq<seq<T>>)
    ensures Concat(xs + ys) == Concat(xs) + Concat(ys)
  {
    if xs == [] {
      assert xs + ys == ys;
    } else {
      assert (xs + ys)[1..] == xs[1..] + ys;
      ConcatAppend(xs[1..], ys);
      Associative(xs[0], Concat(xs[1..]), Concat(ys));
    }
  }

  lemma ConcatSingle<T>(x: seq<T>)
    ensures Concat([x]) == x
  {
    assert [x][1..] == [];
  }

  /** The non-empty members, in order. */
  function NonEmpties<T>(xs: seq<seq<T>>): seq<seq<T>> {
    if xs == [] then [] else IfNonEmpty(xs[0]) + NonEmpties(xs[1..])
  }

  function IfNonEmpty<T>(x: seq<T>): seq<seq<T>> {
    if x == [] then [] else [x]
  }

  lemma {:induction false} NonEmptiesAppend<T>(xs: seq<seq<T>>, ys: seq<seq<T>>)
    ensures NonEmpties(xs + ys) == NonEmpties(xs) + NonEmpties(ys)
  {
    if xs == [] {
      assert xs + ys == ys;
    } else {
      assert (xs + ys)[1..] == xs[1..] + ys;
      NonEmptiesAppend(xs[1..], ys);
      Associative(IfNonEmpty(xs[0]), NonEmpties(xs[1..]), NonEmpties(ys));
    }
  }

  lemma {:induction false} NonEmptiesOfEmpties<T>(xs: seq<seq<T>>)
    requires forall i :: 0 <= i < |xs| ==> xs[i] == []
    ensures NonEmpties(xs) == []
  {
    if xs != [] {
      NonEmptiesOfEmpties(xs[1..]);
    }
  }
}
