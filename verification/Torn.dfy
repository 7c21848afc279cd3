/**
  Replies torn apart.  The sender drops a half-read reply when it has written a
  frame, and then collects its next four bytes from inside one reply and the
  beginning of the next.  No such four bytes make a frame it acts on: the CRC of
  a reply and the zero in its DATA byte see to that.
 */
module Torn {
  import opened Prelude
  import opened Wire
  import Crc

  /** The only words a receiver ever writes. */
  predicate IsReply(word: Word) {
    FromBytes(word).Good? && (FromBytes(word).frame.kind == Ack || FromBytes(word).frame.kind == Nack)
  }

  /** What a sender acts on at all. */
  predicate Acts(d: Decoded) {
    d.Good? && (d.frame.kind == Ack || d.frame.kind == Nack || d.frame.kind == Abort)
  }

  lemma ReplyShape(word: Word)
    requires IsReply(word)
    ensures word[0] == 0x02 || word[0] == 0x03
    ensures word[2] == 0
    ensures word[3] == Crc.Crc8([word[0], word[1], 0])
  {
    hide Crc.Crc8, ValueOf;
    assert word[..3] == [word[0], word[1], word[2]];
  }

  lemma ActingShape(word: Word)
    requires Acts(FromBytes(word))
    ensures word[0] == 0x02 || word[0] == 0x03 || (word[0] == 0x06 && ValueOf(word[1]) == 0)
    ensures word[2] == 0
    ensures word[3] == Crc.Crc8([word[0], word[1], 0])
  {
    hide Crc.Crc8, ValueOf;
    assert word[..3] == [word[0], word[1], word[2]];
  }

  /** A header whose DATA is zero has CRC zero for one SEQ byte only. */
  lemma ZeroCrc(kind: u8, num: u8)
    ensures Crc.Crc8([kind, num, 0]) == 0 <==> num == Crc.Feed(0, kind)
  {
    hide Crc.Feed;
    assert [kind, num, 0] == [kind, num] + [0];
    Crc.Residue([kind, num], 0);
    assert [kind, num] == [kind] + [num];
    Crc.Residue([kind], num);
    assert [kind][1..] == [];
    assert Crc.Fold(Crc.Feed(0, kind), []) == Crc.Feed(0, kind);
  }

  lemma FeedOfReplies()
    ensures Crc.Feed(0, 0x02) == 0x0E && Crc.Feed(0, 0x03) == 0x09
  {
    Crc.FeedFromZero(0x02);
    Crc.FeedFromZero(0x03);
  }

  /** Four bytes cut out of two replies at any of the three wrong places are nothing to a sender. */
  lemma TornWindowIsIgnored(a: Word, b: Word, at: nat)
    requires IsReply(a) && IsReply(b) && 1 <= at <= 3
    ensures !Acts(FromBytes((a + b)[at..at + FRAME_LEN]))
  {
    hide IsReply, Acts, FromBytes, Crc.Crc8, Crc.Feed;
    var ab := a + b;
    var w: Word := ab[at..at + FRAME_LEN];
    assert w == [ab[at], ab[at + 1], ab[at + 2], ab[at + 3]];
    if Acts(FromBytes(w)) {
      ReplyShape(a);
      ReplyShape(b);
      FeedOfReplies();
      ZeroCrc(a[0], a[1]);
      ZeroCrc(a[3], b[0]);
      ActingShape(w);
    }
  }
}
