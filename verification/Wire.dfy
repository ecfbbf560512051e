/** The byte level: packed little-endian layouts, the length table, admission, decoding and framing. */
module Wire {
  import opened BlobTypes
  import opened Reference

  function LE16(n: word): seq<byte> {
    [n % 0x100, n / 0x100]
  }

  function LE32(n: dword): seq<byte> {
    LE16(n % 0x1_0000) + LE16(n / 0x1_0000)
  }

  function Get16(b: seq<byte>, i: nat): word
    requires i + 2 <= |b|
  {
    b[i] as nat + 0x100 * (b[i + 1] as nat)
  }

  function Get32(b: seq<byte>, i: nat): dword
    requires i + 4 <= |b|
  {
    Get16(b, i) as nat + 0x1_0000 * (Get16(b, i + 2) as nat)
  }

  // The commands of BlobOEMCommands, in the order of their numbers.
  datatype Command =
    | BlobGetCount
    | BlobEnumerate
    | BlobOpen
    | BlobRead
    | BlobWrite
    | BlobCommit
    | BlobClose
    | BlobDelete
    | BlobStat
    | BlobSessionStat
    | BlobWriteMeta

  /** The dispatch table. */
  function Lookup(cmd: byte): Option<Command> {
    match cmd
    case 0 => Some(BlobGetCount)
    case 1 => Some(BlobEnumerate)
    case 2 => Some(BlobOpen)
    case 3 => Some(BlobRead)
    case 4 => Some(BlobWrite)
    case 5 => Some(BlobCommit)
    case 6 => Some(BlobClose)
    case 7 => Some(BlobDelete)
    case 8 => Some(BlobStat)
    case 9 => Some(BlobSessionStat)
    case 10 => Some(BlobWriteMeta)
    case _ => None
  }

  /** The size of the packed request structure, crc included. */
  function HeaderSize(c: Command): nat {
    match c
    case BlobGetCount => 0
    case BlobEnumerate => 6
    case BlobOpen => 4
    case BlobRead => 12
    case BlobWrite => 8
    case BlobCommit => 5
    case BlobClose => 4
    case BlobDelete => 2
    case BlobStat => 2
    case BlobSessionStat => 4
    case BlobWriteMeta => 8
  }

  /** The shortest request that passes the length table: a path needs one letter and the terminator, and
      the two writes need one byte of data. */
  function MinimumLength(c: Command): nat {
    HeaderSize(c) + match c
                    case BlobOpen => 2
                    case BlobDelete => 2
                    case BlobStat => 2
                    case BlobWrite => 1
                    case BlobWriteMeta => 1
                    case _ => 0
  }

  predicate ValidateRequestLength(cmd: byte, length: nat) {
    match Lookup(cmd)
    case None => true
    case Some(c) => length >= MinimumLength(c)
  }

  datatype CompletionCode = ReqDataLenInvalid | UnspecifiedError | InvalidFieldRequest | ResponseError

  datatype Resp = Success(body: seq<byte>) | Failure(cc: CompletionCode)

  /** What validation picks: one of the table's handlers, or one that only answers an error. */
  datatype Admission = Reject(cc: CompletionCode) | Admit(command: Command)

  function ValidateBlobCommand(crc: seq<byte> -> word, cmd: byte, data: seq<byte>): Admission {
    if !ValidateRequestLength(cmd, |data|) then Reject(ReqDataLenInvalid)
    else if |data| > 1 && |data| < 3 then Reject(ReqDataLenInvalid)
    else if |data| > 1 && Get16(data, 0) != crc(data[2..]) then Reject(UnspecifiedError)
    else
      match Lookup(cmd)
      case None => Reject(InvalidFieldRequest)
      case Some(c) => Admit(c)
  }

  /** A NUL-terminated string, or the empty string when the last byte is not NUL. */
  function StringFromBuffer(data: seq<byte>): Text {
    if data == [] || data[|data| - 1] != 0 then [] else data[..|data| - 1]
  }

  /** How many bytes a decoder reads without checking that they are there. */
  function Unchecked(c: Command): nat {
    match c
    case BlobEnumerate => 6
    case BlobOpen => 4
    case BlobDelete => 2
    case BlobStat => 2
    case BlobCommit => 5
    case BlobWrite => 8
    case _ => 0
  }

  /** The manager call a request asks for; None when the decoder turns the request down. */
  function Decode(c: Command, data: seq<byte>, now: Time, later: Time): Option<Op>
    requires |data| >= Unchecked(c)
  {
    match c
    case BlobGetCount => Some(BuildList)
    case BlobEnumerate => Some(GetId(Get32(data, 2)))
    case BlobOpen =>
      var path := StringFromBuffer(data[4..]);
      if path == [] then None else Some(Open(Get16(data, 2), path, now, later))
    case BlobRead => if |data| < 12 then None else Some(Read(Get16(data, 2), Get32(data, 4), Get32(data, 8), now))
    case BlobWrite => Some(Write(Get16(data, 2), Get32(data, 4), data[8..], now))
    case BlobCommit =>
      if data[4] > |data| - 5 then None else Some(Commit(Get16(data, 2), data[5..5 + data[4]], now))
    case BlobClose => if |data| < 4 then None else Some(Close(Get16(data, 2), now))
    case BlobDelete =>
      var path := StringFromBuffer(data[2..]);
      if path == [] then None else Some(Delete(path))
    case BlobStat =>
      var path := StringFromBuffer(data[2..]);
      if path == [] then None else Some(StatPath(path))
    case BlobSessionStat => if |data| < 4 then None else Some(Stat(Get16(data, 2), now))
    case BlobWriteMeta =>
      if |data| < 8 then None else Some(WriteMeta(Get16(data, 2), Get32(data, 4), data[8..], now))
  }

  /** The reply to what the manager returned; its first two bytes are room for the crc. */
  function Answered(r: Result): Resp {
    match r
    case Done(ok) => if ok then Success([]) else Failure(UnspecifiedError)
    case Count(n) => Success([0, 0] + LE32(n))
    case Name(id) => if id == [] then Failure(InvalidFieldRequest) else Success([0, 0] + id + [0])
    case Opened(None) => Failure(UnspecifiedError)
    case Opened(Some(s)) => Success([0, 0] + LE16(s))
    case Meta(None) => Failure(UnspecifiedError)
    case Meta(Some(m)) => Success([0, 0] + LE16(m.blobState) + LE32(m.size) + [|m.metadata| % 0x100] + m.metadata)
    case Data(bytes) => Success([0, 0] + bytes)
  }

  /** The size check and the crc stamp put on a reply. */
  function Framed(crc: seq<byte> -> word, resp: Resp, maxSize: nat): Resp {
    if resp.Failure? || resp.body == [] then resp
    else if |resp.body| < 2 then Failure(UnspecifiedError)
    else if |resp.body| > maxSize then Failure(ResponseError)
    else Success(LE16(crc(resp.body[2..])) + resp.body[2..])
  }

  datatype Request = Request(cmd: byte, data: seq<byte>, maxSize: nat, now: Time, later: Time)

  datatype Served = Served(state: State, resp: Resp)

  function Execute(w: World, st: State, c: Command, data: seq<byte>, now: Time, later: Time): Served
    requires |data| >= Unchecked(c)
  {
    match Decode(c, data, now, later)
    case None => Served(st, Failure(ReqDataLenInvalid))
    case Some(op) =>
      var o := Step(w, st, op);
      Served(o.state, Answered(o.result))
  }

  /** The manager call an admitted and decodable request asks for. */
  function OpOf(crc: seq<byte> -> word, rq: Request): Option<Op> {
    match ValidateBlobCommand(crc, rq.cmd, rq.data)
    case Reject(_) => None
    case Admit(c) => Decode(c, rq.data, rq.now, rq.later)
  }

  /** Running what validation picked, then checking and stamping its reply. */
  function Processed(w: World, st: State, picked: Admission, rq: Request): Served
    requires picked.Admit? ==> |rq.data| >= Unchecked(picked.command)
  {
    match picked
    case Reject(cc) => Served(st, Failure(cc))
    case Admit(c) =>
      var s := Execute(w, st, c, rq.data, rq.now, rq.later);
      Served(s.state, Framed(w.crc, s.resp, rq.maxSize))
  }

  /** A whole request: admission, dispatch, reply and framing. */
  function Serve(w: World, st: State, rq: Request): Served {
    Processed(w, st, ValidateBlobCommand(w.crc, rq.cmd, rq.data), rq)
  }
}
