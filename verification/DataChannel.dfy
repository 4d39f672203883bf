/** CDataChannelIce: writes are cut into messages, received messages are appended to m_data, reads drain it. */
module DataChannel {
  import opened Bytes
  import opened Readings

  const MAX_MESSAGE := 0xFFFF

  // ---------------------------------------------------------------- fragmentation

  /** The messages that writeData sends for the last `n` octets of `block`. As written the data pointer never
      moves, so every message starts at the front of the block. */
  function Pieces(v: Variant, block: seq<byte>, n: nat): seq<seq<byte>>
    requires n <= |block|
    decreases n
  {
    var at := if v.Written? then 0 else |block| - n;
    if n <= MAX_MESSAGE then [block[at..at + n]]
    else [block[at..at + MAX_MESSAGE]] + Pieces(v, block, n - MAX_MESSAGE)
  }

  function Fragments(v: Variant, block: seq<byte>): seq<seq<byte>> {
    Pieces(v, block, |block|)
  }

  /** A block of `n` octets takes one message if it is empty, else the quotient rounded up. */
  lemma {:induction false} PiecesCount(v: Variant, block: seq<byte>, n: nat)
    requires n <= |block|
    ensures |Pieces(v, block, n)| == if n == 0 then 1 else (n + 65534) / 65535
    decreases n
  {
    if n > MAX_MESSAGE {
      PiecesCount(v, block, n - MAX_MESSAGE);
    }
  }

  /** Every message but the last is full, the last one holds the remainder, and none is empty unless the block is. */
  lemma {:induction false} PiecesSizes(v: Variant, block: seq<byte>, n: nat)
    requires n <= |block|
    ensures forall i :: 0 <= i < |Pieces(v, block, n)| - 1 ==> |Pieces(v, block, n)[i]| == 65535
    ensures |Pieces(v, block, n)[|Pieces(v, block, n)| - 1]| == n - (|Pieces(v, block, n)| - 1) * 65535
    ensures forall m :: m in Pieces(v, block, n) ==> |m| <= 65535 && (n > 0 ==> m != [])
    decreases n
  {
    if n > MAX_MESSAGE {
      PiecesSizes(v, block, n - MAX_MESSAGE);
    }
  }

  lemma {:induction false} PiecesLength(v: Variant, block: seq<byte>, n: nat)
    requires n <= |block|
    ensures |Flat(Pieces(v, block, n))| == n
    decreases n
  {
    if n > MAX_MESSAGE {
      PiecesLength(v, block, n - MAX_MESSAGE);
      var rest := Pieces(v, block, n - MAX_MESSAGE);
      assert Pieces(v, block, n)[1..] == rest;
    } else {
      var at := if v.Written? then 0 else |block| - n;
      FlatOne(block[at..at + n]);
    }
  }

  /** With the pointer advanced the messages put together are the block. */
  lemma {:induction false} PiecesReassemble(block: seq<byte>, n: nat)
    requires n <= |block|
    ensures Flat(Pieces(Intended, block, n)) == block[|block| - n..]
    decreases n
  {
    var at := |block| - n;
    if n <= MAX_MESSAGE {
      FlatOne(block[at..]);
    } else {
      PiecesReassemble(block, n - MAX_MESSAGE);
      assert Pieces(Intended, block, n)[1..] == Pieces(Intended, block, n - MAX_MESSAGE);
      assert block[at..at + MAX_MESSAGE] + block[at + MAX_MESSAGE..] == block[at..];
    }
  }

  /** As written, octet `i` of what arrives is octet `i mod 65535` of the block. */
  lemma {:induction false} PiecesRepeat(block: seq<byte>, n: nat, i: nat)
    requires i < n <= |block|
    ensures |Flat(Pieces(Written, block, n))| == n
    ensures Flat(Pieces(Written, block, n))[i] == block[i % MAX_MESSAGE]
    decreases n
  {
    PiecesLength(Written, block, n);
    if n <= MAX_MESSAGE {
      FlatOne(block[..n]);
    } else {
      var rest := Pieces(Written, block, n - MAX_MESSAGE);
      assert Pieces(Written, block, n)[1..] == rest;
      if i >= MAX_MESSAGE {
        PiecesRepeat(block, n - MAX_MESSAGE, i - MAX_MESSAGE);
        ShiftModulo(i);
      }
    }
  }

  lemma ShiftModulo(i: nat)
    requires i >= MAX_MESSAGE
    ensures (i - MAX_MESSAGE) % MAX_MESSAGE == i % MAX_MESSAGE
  {
  }

  /** Exactly when the written code transmits a block faithfully: when the block repeats its first 65535 octets,
      in particular whenever it is not longer than one message. */
  lemma WrittenFragmentsExact(block: seq<byte>)
    ensures Flat(Fragments(Written, block)) == block <==> forall i :: 0 <= i < |block| ==> block[i] == block[i % 65535]
    ensures |block| <= 65535 ==> Flat(Fragments(Written, block)) == block
  {
    var all := Flat(Fragments(Written, block));
    PiecesLength(Written, block, |block|);
    forall i | 0 <= i < |block|
      ensures all[i] == block[i % MAX_MESSAGE]
    {
      PiecesRepeat(block, |block|, i);
    }
  }

  /** A block of one octet more than a message is already enough to go wrong. */
  lemma WrittenFragmentsFail()
    ensures exists block: seq<byte> :: |block| == 65536 && Flat(Fragments(Written, block)) != block
  {
    var zero: byte := 0;
    var block := seq(MAX_MESSAGE, i => zero) + [1];
    WrittenFragmentsExact(block);
    assert block[MAX_MESSAGE] == 1 && block[MAX_MESSAGE % MAX_MESSAGE] == 0;
  }

  // ---------------------------------------------------------------- the stream between two ends

  /** One direction of a channel: blocks handed to writeData, messages on their way, m_data at the far end, and what
      the reads there have returned. */
  datatype Stream = Stream(written: seq<byte>, posted: seq<byte>, flight: seq<seq<byte>>, data: seq<byte>, returned: seq<byte>)

  datatype Action =
    | Write(block: seq<byte>)
    | Deliver
    | ReadData(maxlen: nat)

  /** onMessage: an empty message is dropped. */
  function OnMessage(data: seq<byte>, message: seq<byte>): seq<byte> {
    data + message
  }

  /** What readData returns, and what it leaves in m_data. */
  function Taken(data: seq<byte>, maxlen: nat): seq<byte> {
    if maxlen > |data| then data else data[..maxlen]
  }

  function Left(data: seq<byte>, maxlen: nat): seq<byte> {
    if maxlen > |data| then [] else data[maxlen..]
  }

  function Act(v: Variant, s: Stream, a: Action): Stream {
    match a
    case Write(block) =>
      s.(written := s.written + block, posted := s.posted + Flat(Fragments(v, block)),
         flight := s.flight + Fragments(v, block))
    case Deliver =>
      if s.flight == [] then s
      else s.(flight := s.flight[1..], data := OnMessage(s.data, s.flight[0]))
    case ReadData(maxlen) =>
      s.(data := Left(s.data, maxlen), returned := s.returned + Taken(s.data, maxlen))
  }

  function Acts(v: Variant, s: Stream, actions: seq<Action>): Stream
    decreases |actions|
  {
    if actions == [] then s else Acts(v, Act(v, s, actions[0]), actions[1..])
  }

  /** Nothing is lost, repeated or reordered between the messages posted and the reads. */
  predicate Streams(s: Stream) {
    s.posted == s.returned + s.data + Flat(s.flight)
  }

  lemma ActStreams(v: Variant, s: Stream, a: Action)
    requires Streams(s)
    ensures Streams(Act(v, s, a))
    ensures v.Intended? && s.posted == s.written ==> Act(v, s, a).posted == Act(v, s, a).written
  {
    match a
    case Write(block) => WriteStreams(v, s, block);
    case Deliver =>
      if s.flight != [] {
        DeliverStreams(s);
      }
    case ReadData(maxlen) =>
      assert Taken(s.data, maxlen) + Left(s.data, maxlen) == s.data;
      Between(s.returned, Taken(s.data, maxlen), Left(s.data, maxlen), Flat(s.flight));
  }

  lemma Between(a: seq<byte>, b: seq<byte>, c: seq<byte>, d: seq<byte>)
    ensures a + (b + c) + d == (a + b) + c + d
  {
  }

  lemma WriteStreams(v: Variant, s: Stream, block: seq<byte>)
    requires Streams(s)
    ensures Streams(Act(v, s, Write(block)))
    ensures v.Intended? ==> Flat(Fragments(v, block)) == block
  {
    var f := Fragments(v, block);
    FlatAppend(s.flight, f);
    assert s.returned + s.data + Flat(s.flight) + Flat(f) == s.returned + s.data + (Flat(s.flight) + Flat(f));
    if v.Intended? {
      PiecesReassemble(block, |block|);
    }
  }

  lemma DeliverStreams(s: Stream)
    requires Streams(s) && s.flight != []
    ensures s.posted == s.returned + (s.data + s.flight[0]) + Flat(s.flight[1..])
  {
    assert s.returned + s.data + (s.flight[0] + Flat(s.flight[1..])) == s.returned + (s.data + s.flight[0]) + Flat(s.flight[1..]);
  }

  lemma {:induction false} ActsStream(v: Variant, s: Stream, actions: seq<Action>)
    requires Streams(s)
    ensures Streams(Acts(v, s, actions))
    ensures v.Intended? && s.posted == s.written ==> Acts(v, s, actions).posted == Acts(v, s, actions).written
    decreases |actions|
  {
    if actions == [] {
    } else {
      ActStreams(v, s, actions[0]);
      ActsStream(v, Act(v, s, actions[0]), actions[1..]);
    }
  }

  const NEW_STREAM := Stream([], [], [], [], [])

  /** For every sequence of writes, deliveries and reads of any sizes, the reads return the written octets in order:
      what was written is what the reads returned, then m_data, then the messages on their way. */
  lemma FragmentationReassembles(actions: seq<Action>)
    ensures var s := Acts(Intended, NEW_STREAM, actions);
            s.written == s.returned + s.data + Flat(s.flight)
  {
    ActsStream(Intended, NEW_STREAM, actions);
  }

  predicate ShortWrites(actions: seq<Action>) {
    forall i :: 0 <= i < |actions| && actions[i].Write? ==> |actions[i].block| <= MAX_MESSAGE
  }

  /** A block of at most one message travels as that message. */
  lemma ShortFragments(v: Variant, block: seq<byte>)
    requires |block| <= MAX_MESSAGE
    ensures Fragments(v, block) == [block]
  {
    var n := |block|;
    var at := if v.Written? then 0 else |block| - n;
    assert at == 0;
    assert block[at..at + n] == block;
    assert Pieces(v, block, n) == [block[at..at + n]];
  }

  lemma ShortWriteAgrees(s: Stream, a: Action)
    requires a.Write? ==> |a.block| <= MAX_MESSAGE
    ensures Act(Written, s, a) == Act(Intended, s, a)
  {
    if a.Write? {
      ShortFragments(Written, a.block);
      ShortFragments(Intended, a.block);
    }
  }

  /** Writes that fit one message are transmitted as intended, so the written code reassembles them too. */
  lemma {:induction false} ShortWritesAgree(s: Stream, actions: seq<Action>)
    requires ShortWrites(actions)
    ensures Acts(Written, s, actions) == Acts(Intended, s, actions)
    decreases |actions|
  {
    if actions == [] {
    } else {
      ShortWriteAgrees(s, actions[0]);
      ShortWritesAgree(Act(Written, s, actions[0]), actions[1..]);
    }
  }

  // ---------------------------------------------------------------- the code as written

  /** static_cast<int> of a qint64. */
  function ToInt(n: int): int {
    (n + 0x8000_0000) % 0x1_0000_0000 - 0x8000_0000
  }

  lemma ToIntAtMost(n: nat)
    ensures ToInt(n) <= n
    ensures n < 0x8000_0000 ==> ToInt(n) == n
  {
  }

  lemma SentSoFar(done: seq<seq<byte>>, rest: seq<seq<byte>>, all: seq<seq<byte>>)
    requires all == done + rest && rest != []
    ensures |done| < |all| && all[..|done|] == done
  {
  }

  lemma PiecesSome(v: Variant, block: seq<byte>, n: nat)
    requires n <= |block|
    ensures Pieces(v, block, n) != []
  {
  }

  lemma FirstPiece(block: seq<byte>, n: nat)
    requires n <= |block|
    ensures Pieces(Written, block, n)
         == if n > MAX_MESSAGE then [block[..MAX_MESSAGE]] + Pieces(Written, block, n - MAX_MESSAGE) else [block[..n]]
  {
  }

  class CDataChannelIce {
    var isOpen: bool                // the rtc channel exists, is not closed, and the device is open
    var data: seq<byte>             // m_data
    var messages: seq<seq<byte>>    // accepted by the rtc channel, oldest first
    var credit: nat                 // how many more messages the rtc channel will accept

    constructor ()
      ensures isOpen && data == [] && messages == []
    {
      isOpen, data, messages, credit := true, [], [], *;
    }

    /** rtc::DataChannel::send. */
    method Send(message: seq<byte>) returns (ok: bool)
      modifies this`messages, this`credit
      ensures ok == (old(credit) > 0)
      ensures messages == old(messages) + (if ok then [message] else [])
      ensures credit == old(credit) - (if ok then 1 else 0)
    {
      ok := credit > 0;
      if ok {
        messages, credit := messages + [message], credit - 1;
      }
    }

    /** writeData: sends the fragments in turn and gives up at the first one that is refused. */
    method WriteData(block: seq<byte>) returns (r: int)
      modifies this`messages, this`credit
      ensures !old(isOpen) ==> r == -1 && messages == old(messages)
      ensures old(isOpen) ==>
                var all := Fragments(Written, block);
                if old(credit) >= |all| then r == |block| && messages == old(messages) + all
                else r == -1 && messages == old(messages) + all[..old(credit)]
    {
      if !isOpen {
        return -1;
      }
      var n := |block|;
      ghost var done: seq<seq<byte>> := [];
      ghost var all := Fragments(Written, block);
      while n > MAX_MESSAGE
        invariant 0 <= n <= |block|
        invariant all == done + Pieces(Written, block, n)
        invariant messages == old(messages) + done
        invariant |done| <= old(credit) && credit == old(credit) - |done|
      {
        var bSend := Send(block[..MAX_MESSAGE]);
        if !bSend {
          PiecesSome(Written, block, n);
          SentSoFar(done, Pieces(Written, block, n), all);
          return -1;
        }
        FirstPiece(block, n);
        done := done + [block[..MAX_MESSAGE]];
        n := n - MAX_MESSAGE;
      }
      FirstPiece(block, n);
      var bSend := Send(block[..n]);
      if bSend {
        return |block|;
      }
      SentSoFar(done, [block[..n]], all);
      return -1;
    }

    /** The onMessage handler. */
    method OnMessageReceived(message: seq<byte>) returns (readyRead: bool)
      modifies this`data
      ensures data == OnMessage(old(data), message)
      ensures readyRead <==> message != []
    {
      if |message| <= 0 {
        return false;
      }
      data := data + message;
      return true;
    }

    /** readData. `overrun` says that the copy would run past the end of m_data: the size asked for is compared after
        it has been cut down to an int. */
    method ReadBlock(maxlen: nat) returns (n: int, out: seq<byte>, overrun: bool)
      requires maxlen < 0x8000_0000_0000_0000
      modifies this`data
      ensures overrun <==> old(isOpen) && old(data) != [] && maxlen > |old(data)| && ToInt(maxlen) <= |old(data)|
      ensures maxlen < 0x8000_0000 ==> !overrun
      ensures overrun ==> data == old(data)
      ensures !old(isOpen) ==> n == -1 && out == [] && data == old(data)
      ensures old(isOpen) && !overrun ==> out == Taken(old(data), maxlen) && n == |out| && data == Left(old(data), maxlen)
    {
      if !isOpen {
        return -1, [], false;
      }
      if |data| == 0 {
        return 0, [], false;
      }
      n := maxlen;
      if ToInt(maxlen) > |data| {
        n := |data|;
        ToIntAtMost(maxlen);
      }
      if n > |data| {
        return n, [], true;
      }
      out := data[..n];
      if |data| == n {
        data := [];
      } else {
        data := data[n..];
      }
      overrun := false;
    }

    method BytesAvailable() returns (n: nat)
      ensures n == |data|
    {
      n := |data|;
    }
  }
}
