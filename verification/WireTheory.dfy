/** What the byte level promises: admission, request round trips and reply framing, for any crc function. */
module WireTheory {
  import opened BlobTypes
  import opened Reference
  import opened Wire

  type Crc = seq<byte> -> word

  lemma Get16AfterLE16(before: seq<byte>, n: word, after: seq<byte>)
    ensures Get16(before + LE16(n) + after, |before|) == n
  {
    var b := before + LE16(n) + after;
    assert b[|before|] == n % 0x100 && b[|before| + 1] == n / 0x100;
  }

  lemma Get32AfterLE32(before: seq<byte>, n: dword, after: seq<byte>)
    ensures Get32(before + LE32(n) + after, |before|) == n
  {
    var low, high := LE16(n % 0x1_0000), LE16(n / 0x1_0000);
    var b := before + LE32(n) + after;
    assert b == before + low + (high + after);
    Get16AfterLE16(before, n % 0x1_0000, high + after);
    assert b == (before + low) + high + after;
    Get16AfterLE16(before + low, n / 0x1_0000, after);
  }

  /** A request reaches a command exactly when its number is 0 to 10, its length meets the table, and it
      either carries no payload, which only GetCount may, or a payload under a matching crc. */
  lemma Admission(crc: Crc, cmd: byte, data: seq<byte>)
    ensures ValidateBlobCommand(crc, cmd, data).Admit? <==>
            && cmd <= 10
            && |data| >= MinimumLength(Lookup(cmd).value)
            && (|data| <= 1 || (|data| >= 3 && Get16(data, 0) == crc(data[2..])))
    ensures ValidateBlobCommand(crc, cmd, data).Admit? && |data| <= 1 ==> cmd == 0
    ensures ValidateBlobCommand(crc, cmd, data).Admit? ==>
              var c := ValidateBlobCommand(crc, cmd, data).command;
              c == Lookup(cmd).value && |data| >= HeaderSize(c) >= Unchecked(c)
  {
  }

  /** The error code tells which of the three tests failed, the length test taking precedence. */
  lemma RejectionReasons(crc: Crc, cmd: byte, data: seq<byte>)
    requires ValidateBlobCommand(crc, cmd, data).Reject?
    ensures var badLength := |data| == 2 || (cmd <= 10 && |data| < MinimumLength(Lookup(cmd).value));
            var badCrc := |data| > 2 && Get16(data, 0) != crc(data[2..]);
            match ValidateBlobCommand(crc, cmd, data).cc
            case ReqDataLenInvalid => badLength
            case UnspecifiedError => !badLength && badCrc
            case InvalidFieldRequest => !badLength && !badCrc && cmd > 10
            case ResponseError => false
  {
  }

  // The client's side

  function Number(c: Command): byte {
    match c
    case BlobGetCount => 0
    case BlobEnumerate => 1
    case BlobOpen => 2
    case BlobRead => 3
    case BlobWrite => 4
    case BlobCommit => 5
    case BlobClose => 6
    case BlobDelete => 7
    case BlobStat => 8
    case BlobSessionStat => 9
    case BlobWriteMeta => 10
  }

  /** The calls the protocol can express: no empty path, no empty write, at most 255 bytes of commit data. */
  predicate Expressible(op: Op) {
    match op
    case Register(_) => false
    case GetSession => false
    case Open(_, path, _, _) => path != []
    case StatPath(path) => path != []
    case Delete(path) => path != []
    case Commit(_, data, _) => |data| < 0x100
    case Write(_, _, data, _) => data != []
    case WriteMeta(_, _, data, _) => data != []
    case _ => true
  }

  function CommandFor(op: Op): Command
    requires Expressible(op)
  {
    match op
    case BuildList => BlobGetCount
    case GetId(_) => BlobEnumerate
    case Open(_, _, _, _) => BlobOpen
    case Read(_, _, _, _) => BlobRead
    case Write(_, _, _, _) => BlobWrite
    case Commit(_, _, _) => BlobCommit
    case Close(_, _) => BlobClose
    case Delete(_) => BlobDelete
    case StatPath(_) => BlobStat
    case Stat(_, _) => BlobSessionStat
    case WriteMeta(_, _, _, _) => BlobWriteMeta
  }

  /** The fields of a request, packed in the order of ipmi.hpp. */
  function Packed(op: Op): seq<byte>
    requires Expressible(op)
  {
    match op
    case BuildList => []
    case GetId(index) => LE32(index)
    case Open(flags, path, _, _) => LE16(flags) + path + [0]
    case Read(s, offset, size, _) => LE16(s) + LE32(offset) + LE32(size)
    case Write(s, offset, data, _) => LE16(s) + LE32(offset) + data
    case Commit(s, data, _) => LE16(s) + [|data|] + data
    case Close(s, _) => LE16(s)
    case Delete(path) => path + [0]
    case StatPath(path) => path + [0]
    case Stat(s, _) => LE16(s)
    case WriteMeta(s, offset, data, _) => LE16(s) + LE32(offset) + data
  }

  /** The request a client sends: crc first, or nothing at all when there is no body. */
  function Encode(crc: Crc, op: Op): seq<byte>
    requires Expressible(op)
  {
    if op.BuildList? then [] else LE16(crc(Packed(op))) + Packed(op)
  }

  function TimesOf(op: Op, now: Time, later: Time): Op {
    match op
    case Open(flags, path, _, _) => Open(flags, path, now, later)
    case Stat(s, _) => Stat(s, now)
    case Commit(s, data, _) => Commit(s, data, now)
    case Close(s, _) => Close(s, now)
    case Read(s, offset, size, _) => Read(s, offset, size, now)
    case Write(s, offset, data, _) => Write(s, offset, data, now)
    case WriteMeta(s, offset, data, _) => WriteMeta(s, offset, data, now)
    case _ => op
  }

  lemma StringRoundTrip(path: Text)
    ensures StringFromBuffer(path + [0]) == path
  {
  }

  lemma CrcMatches(crc: Crc, op: Op)
    requires Expressible(op) && !op.BuildList?
    ensures var data := Encode(crc, op); |data| >= 3 && Get16(data, 0) == crc(data[2..]) && data[2..] == Packed(op)
  {
    var data := Encode(crc, op);
    assert data == [] + LE16(crc(Packed(op))) + Packed(op);
    Get16AfterLE16([], crc(Packed(op)), Packed(op));
    assert data[2..] == Packed(op);
  }

  lemma PackedOffset(header: seq<byte>, s: word, offset: dword, rest: seq<byte>, data: seq<byte>)
    requires |header| == 2 && data == header + (LE16(s) + LE32(offset) + rest)
    ensures |data| == 8 + |rest| && Get16(data, 2) == s && Get32(data, 4) == offset && data[8..] == rest
  {
    assert data == header + LE16(s) + (LE32(offset) + rest);
    Get16AfterLE16(header, s, LE32(offset) + rest);
    assert data == (header + LE16(s)) + LE32(offset) + rest;
    Get32AfterLE32(header + LE16(s), offset, rest);
  }

  /** Decoding `header` and the packed fields of `op` gives `op` back. */
  ghost predicate Decodes(op: Op, header: seq<byte>)
    requires Expressible(op)
  {
    var data := header + Packed(op);
    && |data| >= MinimumLength(CommandFor(op))
    && forall now, later :: Decode(CommandFor(op), data, now, later) == Some(TimesOf(op, now, later))
  }

  lemma DecodesOpen(op: Op, header: seq<byte>)
    requires Expressible(op) && |header| == 2 && op.Open?
    ensures Decodes(op, header)
  {
    var data := header + Packed(op);
    var text := op.path + [0];
    StringRoundTrip(op.path);
    assert data == header + LE16(op.flags) + text;
    Get16AfterLE16(header, op.flags, text);
    assert data[4..] == text;
  }

  lemma DecodesPathOps(op: Op, header: seq<byte>)
    requires Expressible(op) && |header| == 2 && (op.Delete? || op.StatPath?)
    ensures Decodes(op, header)
  {
    var text := op.path + [0];
    StringRoundTrip(op.path);
    assert (header + text)[2..] == text;
  }

  lemma DecodesIdOps(op: Op, header: seq<byte>)
    requires Expressible(op) && |header| == 2 && (op.Close? || op.Stat? || op.GetId?)
    ensures Decodes(op, header)
  {
    var data := header + Packed(op);
    assert data == header + Packed(op) + [];
    if op.GetId? {
      Get32AfterLE32(header, op.index, []);
    } else {
      Get16AfterLE16(header, op.session, []);
    }
  }

  lemma DecodesCommit(op: Op, header: seq<byte>)
    requires Expressible(op) && |header| == 2 && op.Commit?
    ensures Decodes(op, header)
  {
    var data := header + Packed(op);
    var rest := [|op.data|] + op.data;
    assert data == header + LE16(op.session) + rest;
    Get16AfterLE16(header, op.session, rest);
    assert data[5..5 + |op.data|] == op.data;
  }

  lemma DecodesRead(op: Op, header: seq<byte>)
    requires Expressible(op) && |header| == 2 && op.Read?
    ensures Decodes(op, header)
  {
    var data := header + Packed(op);
    PackedOffset(header, op.session, op.offset, LE32(op.size), data);
    var before := header + LE16(op.session) + LE32(op.offset);
    assert data == before + LE32(op.size) + [];
    Get32AfterLE32(before, op.size, []);
  }

  lemma DecodesWrites(op: Op, header: seq<byte>)
    requires Expressible(op) && |header| == 2 && (op.Write? || op.WriteMeta?)
    ensures Decodes(op, header)
  {
    PackedOffset(header, op.session, op.offset, op.data, header + Packed(op));
  }

  /** Decoding a packed request gives back exactly the call it was packed from. */
  lemma DecodeInvertsPacking(op: Op, header: seq<byte>)
    requires Expressible(op) && |header| == 2 && !op.BuildList?
    ensures Decodes(op, header)
  {
    if op.Open? {
      DecodesOpen(op, header);
    } else if op.Delete? || op.StatPath? {
      DecodesPathOps(op, header);
    } else if op.Close? || op.Stat? || op.GetId? {
      DecodesIdOps(op, header);
    } else if op.Commit? {
      DecodesCommit(op, header);
    } else if op.Read? {
      DecodesRead(op, header);
    } else {
      DecodesWrites(op, header);
    }
  }

  lemma EncodedIsAdmitted(crc: Crc, op: Op)
    requires Expressible(op)
    ensures ValidateBlobCommand(crc, Number(CommandFor(op)), Encode(crc, op)) == Admit(CommandFor(op))
  {
    assert Lookup(Number(CommandFor(op))) == Some(CommandFor(op));
    if !op.BuildList? {
      CrcMatches(crc, op);
      DecodeInvertsPacking(op, LE16(crc(Packed(op))));
      assert Decodes(op, LE16(crc(Packed(op))));
    }
  }

  lemma EncodedIsDecoded(crc: Crc, op: Op, now: Time, later: Time)
    requires Expressible(op)
    ensures |Encode(crc, op)| >= Unchecked(CommandFor(op))
    ensures Decode(CommandFor(op), Encode(crc, op), now, later) == Some(TimesOf(op, now, later))
  {
    if !op.BuildList? {
      DecodeInvertsPacking(op, LE16(crc(Packed(op))));
      assert Decodes(op, LE16(crc(Packed(op))));
    }
  }

  /** End to end: a request packed with a matching crc makes the manager do exactly that call. */
  lemma RequestRoundTrip(crc: Crc, op: Op, maxSize: nat, now: Time, later: Time)
    requires Expressible(op)
    ensures OpOf(crc, Request(Number(CommandFor(op)), Encode(crc, op), maxSize, now, later))
         == Some(TimesOf(op, now, later))
  {
    EncodedIsAdmitted(crc, op);
    EncodedIsDecoded(crc, op, now, later);
  }

  /** A commit request takes exactly its announced bytes: what follows them is dropped, too few is refused. */
  lemma CommitTakesItsLength(s: word, announced: byte, tail: seq<byte>, header: seq<byte>, now: Time, later: Time)
    requires |header| == 2
    ensures Decode(BlobCommit, header + LE16(s) + [announced] + tail, now, later) ==
            if announced <= |tail| then Some(Commit(s, tail[..announced], now)) else None
  {
    var data := header + LE16(s) + [announced] + tail;
    assert data == header + LE16(s) + ([announced] + tail);
    Get16AfterLE16(header, s, [announced] + tail);
    assert data[4] == announced;
    if announced <= |tail| {
      assert data[5..5 + announced] == tail[..announced];
    }
  }

  // Replies

  lemma ServesCall(w: World, st: State, rq: Request, op: Op)
    requires OpOf(w.crc, rq) == Some(op)
    ensures var o := Step(w, st, op);
            Serve(w, st, rq) == Served(o.state, Framed(w.crc, Answered(o.result), rq.maxSize))
  {
  }

  /** A decodable request is answered with success exactly when its command produced a reply that fits, and
      with the size error exactly when it produced one that does not. A successful reply is empty, or fits,
      starts with the crc of the rest, and the rest is what the command produced. */
  lemma ReplyFraming(w: World, st: State, rq: Request)
    ensures var r := Serve(w, st, rq).resp;
            r.Success? && r.body != [] ==>
              && 2 <= |r.body| <= rq.maxSize
              && Get16(r.body, 0) == w.crc(r.body[2..])
              && OpOf(w.crc, rq).Some?
              && Answered(Step(w, st, OpOf(w.crc, rq).value).result).Success?
              && r.body[2..] == Answered(Step(w, st, OpOf(w.crc, rq).value).result).body[2..]
    ensures OpOf(w.crc, rq).Some? ==>
              var r := Serve(w, st, rq).resp;
              var a := Answered(Step(w, st, OpOf(w.crc, rq).value).result);
              && (r.Success? <==> a.Success? && |a.body| <= rq.maxSize)
              && (r == Failure(ResponseError) <==> a.Success? && |a.body| > rq.maxSize)
              && (r.Success? ==> |r.body| == |a.body|)
              && (a.Failure? ==> r == a)
  {
    var r := Serve(w, st, rq).resp;
    if r.Success? && r.body != [] {
      var inner := Answered(Step(w, st, OpOf(w.crc, rq).value).result);
      assert r.body == [] + LE16(w.crc(inner.body[2..])) + inner.body[2..];
      Get16AfterLE16([], w.crc(inner.body[2..]), inner.body[2..]);
      assert r.body[2..] == inner.body[2..];
    }
  }

  /** The metadata length byte is right exactly when there are fewer than 256 bytes of metadata, which a
      reply of at most 264 bytes guarantees. */
  lemma StatReplyLength(crc: Crc, m: BlobMeta, maxSize: nat)
    ensures var r := Framed(crc, Answered(Meta(Some(m))), maxSize);
            r.Success? ==>
              && |r.body| == 9 + |m.metadata|
              && r.body[9..] == m.metadata
              && Get16(r.body, 2) == m.blobState && Get32(r.body, 4) == m.size
              && (r.body[8] == |m.metadata| <==> |m.metadata| < 0x100)
              && (maxSize <= 264 ==> r.body[8] == |r.body[9..]|)
  {
    var r := Framed(crc, Answered(Meta(Some(m))), maxSize);
    if r.Success? {
      var inner := Answered(Meta(Some(m))).body;
      var tail := [|m.metadata| % 0x100] + m.metadata;
      var header := r.body[..2];
      assert inner[2..] == LE16(m.blobState) + LE32(m.size) + tail;
      assert r.body == header + (LE16(m.blobState) + LE32(m.size) + tail);
      PackedOffset(header, m.blobState, m.size, tail, r.body);
      assert r.body[8] == r.body[8..][0] && r.body[9..] == r.body[8..][1..];
    }
  }

  /** An error reply does not mean nothing happened: what a request does to the manager never depends on
      how large a reply may be, but with no room the reply to an open that succeeded is an error. */
  lemma ReplySizeDoesNotUndo(w: World, st: State, rq: Request, maxSize: nat)
    ensures Serve(w, st, rq.(maxSize := maxSize)).state == Serve(w, st, rq).state
    ensures var op := OpOf(w.crc, rq);
            (op.Some? && Step(w, st, op.value).result.Opened? && Step(w, st, op.value).result.session.Some?
             && maxSize < 4)
            ==> Serve(w, st, rq.(maxSize := maxSize)).resp == Failure(ResponseError)
  {
  }
}
