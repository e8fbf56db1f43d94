/** The classes of commands by the text of their names, and the slots of the cache by the names and first
    bytes of commands. */
module Spelling {
  import opened Wire
  import opened Commands

  /** The four bytes are these characters. */
  predicate Reads(n: CommandName, a: char, b: char, c: char, d: char) {
    n.b0 == a as int && n.b1 == b as int && n.b2 == c as int && n.b3 == d as int
  }

  predicate LockRequestName(n: CommandName) {
    Reads(n, 'L', 'O', 'C', 'K') || Reads(n, 'P', 'L', 'C', 'K')
  }

  predicate LockStatusName(n: CommandName) {
    Reads(n, 'L', 'K', 'S', 'T') || Reads(n, 'L', 'K', 'O', 'B')
  }

  predicate LevelsName(n: CommandName) {
    || Reads(n, 'A', 'M', 'L', 'v') || Reads(n, 'A', 'M', 'm', 'O') || Reads(n, 'F', 'A', 'S', 'P')
    || Reads(n, 'F', 'M', 'L', 'v') || Reads(n, 'F', 'A', 't', 'l') || Reads(n, 'F', 'A', 's', 'p')
    || Reads(n, 'T', 'i', 'm', 'e') || Reads(n, 'T', 'i', 'm', 'C') || Reads(n, 'T', 'C', 'C', 'c')
  }

  predicate SubscriptionName(n: CommandName) {
    Reads(n, 'S', 'A', 'L', 'N') || Reads(n, 'F', 'A', 'S', 'P') || Reads(n, 'S', 'A', 'f', 'f')
  }

  predicate ReadyName(n: CommandName) {
    Reads(n, 'I', 'n', 'C', 'm')
  }

  predicate VersionName(n: CommandName) {
    Reads(n, '_', 'v', 'e', 'r')
  }

  /** The UTF-8 encoding of one code point in two bytes. */
  function TwoByteForm(codePoint: int): (r: (int, int))
    requires 0x80 <= codePoint < 0x800
  {
    (0xC0 + codePoint / 0x40, 0x80 + codePoint % 0x40)
  }

  ghost predicate TextPair(c: byte, d: byte) {
    (c < 0x80 && d < 0x80) || exists cp: int :: 0x80 <= cp < 0x800 && TwoByteForm(cp) == (c, d)
  }

  /** FT and then text, or Data. */
  ghost predicate TransferName(n: CommandName) {
    (n.b0 == 'F' as int && n.b1 == 'T' as int && TextPair(n.b2, n.b3)) || Reads(n, 'D', 'a', 't', 'a')
  }

  lemma TextPairIff(c: byte, d: byte)
    ensures TextPair(c, d) <==> Utf8Pair(c, d)
  {
    if 0xC2 <= c <= 0xDF && 0x80 <= d <= 0xBF {
      var cp := (c - 0xC0) * 0x40 + (d - 0x80);
      assert TwoByteForm(cp) == (c, d);
    }
  }

  /** Every class that the code tests for is the class of these names. */
  lemma ClassesBySpelling(n: CommandName)
    ensures IsLockRequest(n) <==> LockRequestName(n)
    ensures IsLockStatus(n) <==> LockStatusName(n)
    ensures IsLockCommand(n) <==> LockRequestName(n) || LockStatusName(n) || Reads(n, 'L', 'o', 'c', 'k')
    ensures IsEphemeralCommand(n) <==> LevelsName(n)
    ensures IsAudioLevelsSubscribe(n) <==> SubscriptionName(n)
    ensures IsTransferCommand(n) <==> TransferName(n)
    ensures n == INIT_COMPLETE <==> ReadyName(n)
    ensures n == VERSION <==> VersionName(n)
  {
    TextPairIff(n.b2, n.b3);
    hide TextPair, Utf8Pair;
  }
}
