/** The vocabulary shared by the manager, the handlers and the command layer. */
module BlobTypes {

  // The integer widths of the C++ declarations.
  type byte = n: nat | n < 0x100
  type word = n: nat | n < 0x1_0000
  type dword = n: nat | n < 0x1_0000_0000

  // A std::string is a sequence of bytes; nothing in the source interprets them.
  type Text = seq<byte>

  // Stands for a GenericBlobInterface pointer: only its identity matters to the manager.
  type HandlerId = nat

  // A reading of the steady clock.
  type Time = int

  datatype Option<+T> = None | Some(value: T)

  datatype BlobMeta = BlobMeta(blobState: word, size: dword, metadata: seq<byte>)

  const READ: word := 1
  const WRITE: word := 2
  const READ_OR_WRITE: word := 3
  const ANY_FLAG: word := 0xffff

  /** One call of a GenericBlobInterface method, with its arguments. */
  datatype Call =
    | AskCanHandle(path: Text)
    | AskIds
    | AskDelete(path: Text)
    | AskStatPath(path: Text)
    | AskOpen(session: word, flags: word, path: Text)
    | AskRead(session: word, offset: dword, size: dword)
    | AskWrite(session: word, offset: dword, data: seq<byte>)
    | AskWriteMeta(session: word, offset: dword, data: seq<byte>)
    | AskCommit(session: word, data: seq<byte>)
    | AskClose(session: word)
    | AskStat(session: word)
    | AskExpire(session: word)

  /** What a handler gives back; a caller looks only at the part its call is about. */
  datatype Answer = Answer(ok: bool, ids: seq<Text>, bytes: seq<byte>, meta: BlobMeta)

  datatype Event = Event(handler: HandlerId, call: Call, answer: Answer)
  type Log = seq<Event>

  /** Everything outside the manager. `answer` is any function at all of what the handlers were asked
      so far, so a statement about every World is a statement about every behaviour of every handler. */
  datatype World = World(answer: (Log, HandlerId, Call) -> Answer, timeout: Time, crc: seq<byte> -> word)

  /** The history after handler `h` was asked `c`. */
  function Told(w: World, log: Log, h: HandlerId, c: Call): Log {
    log + [Event(h, c, w.answer(log, h, c))]
  }

  /** The `&` of C on unsigned integers. */
  function And(a: nat, b: nat): (r: nat)
    ensures r <= a && r <= b
  {
    if a == 0 || b == 0 then 0
    else (if a % 2 == 1 && b % 2 == 1 then 1 else 0) + 2 * And(a / 2, b / 2)
  }

  function Pow2(k: nat): (r: nat)
    ensures r > 0
  {
    if k == 0 then 1 else 2 * Pow2(k - 1)
  }

  lemma {:induction false} AndWithOnes(a: nat, k: nat)
    requires a < Pow2(k)
    ensures And(a, Pow2(k) - 1) == a
  {
    if k > 0 && a > 0 {
      var ones := Pow2(k) - 1;
      assert ones == 2 * (Pow2(k - 1) - 1) + 1;
      assert ones / 2 == Pow2(k - 1) - 1 && ones % 2 == 1;
      AndWithOnes(a / 2, k - 1);
    }
  }

  /** What the manager's three flag tests mean: bit 0, bit 1, either of them, any bit at all. */
  lemma FlagTests(flags: word)
    ensures And(flags, READ) != 0 <==> flags % 2 == 1
    ensures And(flags, WRITE) != 0 <==> flags / 2 % 2 == 1
    ensures And(flags, READ_OR_WRITE) != 0 <==> And(flags, READ) != 0 || And(flags, WRITE) != 0
    ensures And(flags, ANY_FLAG) != 0 <==> flags != 0
  {
    var half := flags / 2;
    assert And(half, 0) == 0 && And(half / 2, 0) == 0;
    assert And(half, 1) == if half % 2 == 1 then 1 else 0;
    assert Pow2(4) == 16 && Pow2(8) == 0x100 && Pow2(12) == 0x1000 && Pow2(16) == 0x1_0000;
    AndWithOnes(flags, 16);
  }
}
