/** The packed message layout of src/common/message.h: every constant is an offset in the frame. */
module Message {
  import opened Bytes

  const MAX_LEN := 66560
  const HEADER := 5
  const BUFFER := 4096
  const NAME := 128
  const ATR := 33

  const ESTABLISH_CONTEXT: byte := 0
  const RELEASE_CONTEXT: byte := 1
  const IS_VALID_CONTEXT: byte := 2
  const SET_TIMEOUT: byte := 3
  const CONNECT: byte := 4
  const RECONNECT: byte := 5
  const DISCONNECT: byte := 6
  const BEGIN_TRANSACTION: byte := 7
  const END_TRANSACTION: byte := 8
  const CANCEL_TRANSACTION: byte := 9
  const STATUS: byte := 10
  const GET_STATUS_CHANGE: byte := 11
  const TRANSMIT: byte := 12
  const CONTROL: byte := 13
  const CANCEL: byte := 14
  const GET_ATTRIB: byte := 15
  const SET_ATTRIB: byte := 16
  const LIST_READERS: byte := 17
  const LIST_GROUPS: byte := 18

  // Every struct starts with the handle the call is about, except s_establish.
  const HANDLE := HEADER

  const ESTABLISH_SCOPE := HEADER
  const ESTABLISH_HANDLE := ESTABLISH_SCOPE + 4
  const ESTABLISH_RV := ESTABLISH_HANDLE + 4
  const ESTABLISH_END := ESTABLISH_RV + 4

  // s_release, s_isvalid, s_begin and s_cancel
  const SHORT_RV := HANDLE + 4
  const SHORT_END := SHORT_RV + 4

  // s_settimeout, s_disconnect and s_end
  const WORD_ARG := HANDLE + 4
  const WORD_RV := WORD_ARG + 4
  const WORD_END := WORD_RV + 4

  const CONNECT_READER := HANDLE + 4
  const CONNECT_SHARE := CONNECT_READER + NAME
  const CONNECT_PREFERRED := CONNECT_SHARE + 4
  const CONNECT_CARD := CONNECT_PREFERRED + 4
  const CONNECT_ACTIVE := CONNECT_CARD + 4
  const CONNECT_RV := CONNECT_ACTIVE + 4
  const CONNECT_END := CONNECT_RV + 4

  const RECONNECT_SHARE := HANDLE + 4
  const RECONNECT_PREFERRED := RECONNECT_SHARE + 4
  const RECONNECT_INIT := RECONNECT_PREFERRED + 4
  const RECONNECT_ACTIVE := RECONNECT_INIT + 4
  const RECONNECT_RV := RECONNECT_ACTIVE + 4
  const RECONNECT_END := RECONNECT_RV + 4

  const STATUS_NAME := HANDLE + 4
  const STATUS_NAME_LEN := STATUS_NAME + NAME
  const STATUS_STATE := STATUS_NAME_LEN + 4
  const STATUS_PROTOCOL := STATUS_STATE + 4
  const STATUS_ATR := STATUS_PROTOCOL + 4
  const STATUS_ATR_LEN := STATUS_ATR + ATR
  const STATUS_RV := STATUS_ATR_LEN + 4
  const STATUS_END := STATUS_RV + 4

  const CHANGE_TIMEOUT := HANDLE + 4
  const CHANGE_RV := CHANGE_TIMEOUT + 4
  const CHANGE_COUNT := CHANGE_RV + 4
  const CHANGE_READERS := CHANGE_COUNT + 4

  // s_readerstate, relative to its own start
  const READER_CURRENT := NAME
  const READER_EVENT := READER_CURRENT + 4
  const READER_ATR := READER_EVENT + 4
  const READER_ATR_LEN := READER_ATR + ATR
  const READER_SIZE := 173

  const SEND_PROTOCOL := HANDLE + 4
  const SEND_PCI_LEN := SEND_PROTOCOL + 4
  const RECV_PROTOCOL := SEND_PCI_LEN + 4
  const RECV_PCI_LEN := RECV_PROTOCOL + 4
  const TRANSMIT_ROOM := RECV_PCI_LEN + 4
  const TRANSMIT_RV := TRANSMIT_ROOM + 4
  const TRANSMIT_LEN := TRANSMIT_RV + 4
  const TRANSMIT_DATA := TRANSMIT_LEN + 4

  const CONTROL_CODE := HANDLE + 4
  const CONTROL_SEND := CONTROL_CODE + 4
  const CONTROL_SEND_LEN := CONTROL_SEND + BUFFER
  const CONTROL_RECV := CONTROL_SEND_LEN + 4
  const CONTROL_RECV_LEN := CONTROL_RECV + BUFFER
  const CONTROL_RETURNED := CONTROL_RECV_LEN + 4
  const CONTROL_RV := CONTROL_RETURNED + 4
  const CONTROL_END := CONTROL_RV + 4

  const ATTRIB_ID := HANDLE + 4
  const ATTRIB_DATA := ATTRIB_ID + 4
  const ATTRIB_LEN := ATTRIB_DATA + BUFFER
  const ATTRIB_RV := ATTRIB_LEN + 4
  const ATTRIB_END := ATTRIB_RV + 4

  // s_listreaders and s_listgroups
  const LIST_LEN := HANDLE + 4
  const LIST_QUERY := LIST_LEN + 4
  const LIST_RV := LIST_QUERY + 4
  const LIST_DATA := LIST_RV + 4

  // maxDataLength of the transmit and list calls
  const MAX_TRANSMIT := MAX_LEN - TRANSMIT_DATA
  const MAX_LIST := MAX_LEN - LIST_DATA
  // as many reader states as the message buffer has room for
  const MAX_READERS := 384

  /** The content of a message buffer: `char buffer[PP_MAX_MESSAGE_LEN]`. */
  type Image = b: seq<byte> | |b| == MAX_LEN witness Zeros(MAX_LEN)

  function Length(b: seq<byte>): (n: int)
    requires |b| >= HEADER
    ensures 0 <= n < TWO_32
  {
    Get32(b, 1)
  }

  /** `over` after a frame has been received into it. */
  function Received(over: Image, frame: seq<byte>): (r: Image)
    requires |frame| <= MAX_LEN
  {
    Put(over, 0, frame)
  }

  /** The frame an image holds: its first header.len bytes. */
  function Frame(b: Image): (f: seq<byte>)
    requires Length(b) <= MAX_LEN
    ensures |f| == Length(b)
  {
    b[..Length(b)]
  }

  /** The s_readerstate structs that follow the fixed part of a status-change message. */
  type ReaderBlock = s: seq<byte> | |s| == READER_SIZE witness Zeros(READER_SIZE)

  function ReaderAt(i: nat): (o: nat)
  {
    CHANGE_READERS + 173 * i
  }

  function Block(b: Image, i: nat): (s: ReaderBlock)
    requires i < MAX_READERS
  {
    b[ReaderAt(i)..ReaderAt(i) + READER_SIZE]
  }

  function PutBlock(b: Image, i: nat, s: ReaderBlock): (b': Image)
    requires i < MAX_READERS
    ensures Block(b', i) == s && b'[0] == b[0]
    ensures forall lo, hi {:trigger b'[lo..hi]} ::
              0 <= lo <= hi <= MAX_LEN && (hi <= ReaderAt(i) || ReaderAt(i) + READER_SIZE <= lo) ==>
                  b'[lo..hi] == b[lo..hi]
  {
    Put(b, ReaderAt(i), s)
  }

  /** Storing into a struct inside the message is storing the changed struct. */
  lemma PutWithin(b: Image, i: nat, s: ReaderBlock, x: nat, d: seq<byte>)
    requires i < MAX_READERS && x + |d| <= READER_SIZE
    ensures Put(PutBlock(b, i, s), ReaderAt(i) + x, d) == PutBlock(b, i, Put(s, x, d))
  {
    PutPut(b, ReaderAt(i), s, x, d);
  }

  lemma Put32Within(b: Image, i: nat, s: ReaderBlock, x: nat, v: int)
    requires i < MAX_READERS && x + 4 <= READER_SIZE
    ensures Put32(PutBlock(b, i, s), ReaderAt(i) + x, v) == PutBlock(b, i, Put32(s, x, v))
  {
    PutWithin(b, i, s, x, LE32(v));
  }

  lemma PutBlockTwice(b: Image, i: nat, s: ReaderBlock, t: ReaderBlock)
    requires i < MAX_READERS
    ensures PutBlock(PutBlock(b, i, s), i, t) == PutBlock(b, i, t)
  {
  }

  /** A struct with its states and the first n bytes of an ATR stored in place, as both sides do. */
  function WithState(s: ReaderBlock, current: int, event: int, n: nat, atr: seq<byte>): (s': ReaderBlock)
    requires n <= ATR && n <= |atr|
    ensures s'[..NAME] == s[..NAME]
  {
    var s1 := Put32(Put32(s, READER_CURRENT, current), READER_EVENT, event);
    Put(Put32(s1, READER_ATR_LEN, n), READER_ATR, atr[..n])
  }

  method StoreState(m: array<byte>, i: nat, current: int, event: int, n: nat, atr: seq<byte>)
    requires m.Length == MAX_LEN && i < MAX_READERS && n <= ATR && n <= |atr|
    modifies m
    ensures m[..] == PutBlock(old(m[..]), i, WithState(Block(old(m[..]), i), current, event, n, atr))
  {
    hide PutBlock, Put, Put32, Block, LE32;
    ghost var b: Image := m[..];
    ghost var s := Block(b, i);
    var o := ReaderAt(i);
    SameBlock(b, i);
    Store32(m, o + READER_CURRENT, current);
    Put32Within(b, i, s, READER_CURRENT, current);
    s := Put32(s, READER_CURRENT, current);
    Store32(m, o + READER_EVENT, event);
    Put32Within(b, i, s, READER_EVENT, event);
    s := Put32(s, READER_EVENT, event);
    Store32(m, o + READER_ATR_LEN, n);
    Put32Within(b, i, s, READER_ATR_LEN, n);
    s := Put32(s, READER_ATR_LEN, n);
    Store(m, o + READER_ATR, atr[..n]);
    PutWithin(b, i, s, READER_ATR, atr[..n]);
  }

  lemma SameBlock(b: Image, i: nat)
    requires i < MAX_READERS
    ensures PutBlock(b, i, Block(b, i)) == b
  {
  }

  /** What is received is, slice by slice, what was sent; the rest of the buffer is left alone. */
  lemma ReceivedSlices(over: Image, b: Image)
    requires HEADER <= Length(b) <= MAX_LEN
    ensures Received(over, Frame(b))[0] == b[0]
    ensures forall lo, hi {:trigger Received(over, Frame(b))[lo..hi]} ::
              0 <= lo <= hi <= Length(b) ==> Received(over, Frame(b))[lo..hi] == b[lo..hi]
    ensures forall lo, hi {:trigger Received(over, Frame(b))[lo..hi]} ::
              Length(b) <= lo <= hi <= MAX_LEN ==> Received(over, Frame(b))[lo..hi] == over[lo..hi]
  {
    var r := Received(over, Frame(b));
    forall lo, hi {:trigger r[lo..hi]} | 0 <= lo <= hi <= Length(b)
      ensures r[lo..hi] == b[lo..hi]
    {
      SliceOfPrefix(b, Length(b), lo, hi);
    }
  }
}
