/** What the client is told, request by request, in bytes and completion codes. */
module Replies {
  import opened BlobTypes
  import opened Reference
  import opened Contract
  import opened Discipline
  import opened Wire
  import opened WireTheory

  // Numbers on the wire

  /** Multi-byte values have their low byte first. */
  lemma LowByteFirst(n: word, m: dword)
    ensures |LE16(n)| == 2 && LE16(n)[0] as nat + 0x100 * (LE16(n)[1] as nat) == n
    ensures |LE32(m)| == 4
    ensures LE32(m)[0] as nat + 0x100 * (LE32(m)[1] as nat) + 0x1_0000 * (LE32(m)[2] as nat)
          + 0x100_0000 * (LE32(m)[3] as nat) == m
  {
  }

  lemma ReadLowByteFirst(b: seq<byte>, i: nat)
    ensures i + 2 <= |b| ==> Get16(b, i) == b[i] as nat + 0x100 * (b[i + 1] as nat)
    ensures i + 4 <= |b| ==> Get32(b, i) == b[i] as nat + 0x100 * (b[i + 1] as nat) + 0x1_0000 * (b[i + 2] as nat)
                                          + 0x100_0000 * (b[i + 3] as nat)
  {
  }

  // Requests that are turned away before the manager hears of them

  /** The shortest request of each command, by its number: crc, fields, and one letter with its terminator
      or one byte of data where the command needs that. */
  function Shortest(cmd: byte): nat {
    match cmd
    case 1 => 2 + 4
    case 2 => 2 + 2 + 2
    case 3 => 2 + 2 + 4 + 4
    case 4 => 2 + 2 + 4 + 1
    case 5 => 2 + 2 + 1
    case 6 => 2 + 2
    case 7 => 2 + 2
    case 8 => 2 + 2
    case 9 => 2 + 2
    case 10 => 2 + 2 + 4 + 1
    case _ => 0
  }

  predicate BadLength(rq: Request) {
    |rq.data| == 2 || |rq.data| < Shortest(rq.cmd)
  }

  /** The first two bytes, low one first, are not the crc of the others. */
  predicate BadCrc(crc: Crc, rq: Request) {
    |rq.data| > 2 && rq.data[0] as nat + 0x100 * (rq.data[1] as nat) != crc(rq.data[2..])
  }

  /** A request of a wrong length, under a wrong crc, or of no known command is answered with that error,
      tested in this order, and changes nothing. All others are dispatched. */
  lemma TurnedAwayAtTheDoor(w: World, st: State, rq: Request)
    ensures BadLength(rq) ==> Serve(w, st, rq) == Served(st, Failure(ReqDataLenInvalid))
    ensures !BadLength(rq) && BadCrc(w.crc, rq) ==> Serve(w, st, rq) == Served(st, Failure(UnspecifiedError))
    ensures !BadLength(rq) && !BadCrc(w.crc, rq) && rq.cmd > 10 ==>
              Serve(w, st, rq) == Served(st, Failure(InvalidFieldRequest))
    ensures !BadLength(rq) && !BadCrc(w.crc, rq) && rq.cmd <= 10 ==>
              Lookup(rq.cmd).Some? && ValidateBlobCommand(w.crc, rq.cmd, rq.data) == Admit(Lookup(rq.cmd).value)
  {
  }

  /** Whatever the reason, a request that asks the manager for nothing is answered with an error. */
  lemma UnservedIsFailure(w: World, st: State, rq: Request)
    requires OpOf(w.crc, rq).None?
    ensures Serve(w, st, rq).state == st && Serve(w, st, rq).resp.Failure?
  {
  }

  predicate Admissible(w: World, rq: Request) {
    !BadLength(rq) && !BadCrc(w.crc, rq) && rq.cmd <= 10
  }

  /** Where the path starts in the requests that end in one: after the crc, and after the flags of an open. */
  function PathStart(cmd: byte): nat {
    if cmd == 2 then 4 else 2
  }

  /** A path without its terminator is a length error, for Open, Delete and Stat alike; with it, the path is
      all the bytes before it, whatever they are. */
  lemma PathNeedsTerminator(w: World, st: State, rq: Request)
    requires Admissible(w, rq) && rq.cmd in {2, 7, 8}
    ensures rq.data[|rq.data| - 1] != 0 ==> Serve(w, st, rq) == Served(st, Failure(ReqDataLenInvalid))
    ensures rq.data[|rq.data| - 1] == 0 ==>
              var path := rq.data[PathStart(rq.cmd)..|rq.data| - 1];
              OpOf(w.crc, rq) == Some(if rq.cmd == 2 then Open(Get16(rq.data, 2), path, rq.now, rq.later)
                                      else if rq.cmd == 7 then Delete(path) else StatPath(path))
  {
    TailAsText(rq.data, PathStart(rq.cmd));
  }

  /** The rest of a request as a string: everything up to a final NUL, and nothing at all without one. */
  lemma TailAsText(data: seq<byte>, start: nat)
    requires start < |data|
    ensures StringFromBuffer(data[start..]) == if data[|data| - 1] == 0 then data[start..|data| - 1] else []
  {
    var text := data[start..];
    assert text[|text| - 1] == data[|data| - 1];
    assert text[..|text| - 1] == data[start..|data| - 1];
  }

  /** A commit that announces more data than it carries is a length error. */
  lemma CommitNeedsItsData(w: World, st: State, rq: Request)
    requires Admissible(w, rq) && rq.cmd == 5
    ensures rq.data[4] > |rq.data| - 5 ==> Serve(w, st, rq) == Served(st, Failure(ReqDataLenInvalid))
    ensures rq.data[4] <= |rq.data| - 5 ==>
              OpOf(w.crc, rq) == Some(Commit(Get16(rq.data, 2), rq.data[5..5 + rq.data[4]], rq.now))
  {
  }

  /** The other commands are decoded from their fixed fields, whatever follows them; the two writes take all
      that follows as their data. */
  lemma FieldsAtTheirPlaces(w: World, rq: Request)
    requires Admissible(w, rq)
    ensures rq.cmd == 0 ==> OpOf(w.crc, rq) == Some(BuildList)
    ensures rq.cmd == 1 ==> OpOf(w.crc, rq) == Some(GetId(Get32(rq.data, 2)))
    ensures rq.cmd == 3 ==>
              OpOf(w.crc, rq) == Some(Read(Get16(rq.data, 2), Get32(rq.data, 4), Get32(rq.data, 8), rq.now))
    ensures rq.cmd == 4 ==> OpOf(w.crc, rq) == Some(Write(Get16(rq.data, 2), Get32(rq.data, 4), rq.data[8..], rq.now))
    ensures rq.cmd == 6 ==> OpOf(w.crc, rq) == Some(Close(Get16(rq.data, 2), rq.now))
    ensures rq.cmd == 9 ==> OpOf(w.crc, rq) == Some(Stat(Get16(rq.data, 2), rq.now))
    ensures rq.cmd == 10 ==>
              OpOf(w.crc, rq) == Some(WriteMeta(Get16(rq.data, 2), Get32(rq.data, 4), rq.data[8..], rq.now))
  {
  }

  // What the manager's results become

  /** A refusal by the manager is an unspecified error, except that an index without an id is an invalid
      field; a success without anything to return is an empty reply. */
  lemma RefusalsAreErrors(w: World, st: State, rq: Request)
    requires OpOf(w.crc, rq).Some?
    ensures var result := Step(w, st, OpOf(w.crc, rq).value).result;
            var resp := Serve(w, st, rq).resp;
            && (result == Done(false) || result == Opened(None) || result == Meta(None) ==>
                  resp == Failure(UnspecifiedError))
            && (result == Name([]) ==> resp == Failure(InvalidFieldRequest))
            && (result == Done(true) ==> resp == Success([]))
  {
  }

  /** What a reply that fits carries after its crc: the count, the id with its terminator, the session's id,
      or the bytes read, which may be none. */
  ghost predicate Carries(resp: Resp, result: Result, maxSize: nat) {
    match result
    case Count(n) => maxSize >= 6 ==> resp.Success? && |resp.body| == 6 && Get32(resp.body, 2) == n
    case Name(id) =>
      id != [] && maxSize >= |id| + 3 ==> resp.Success? && |resp.body| >= 2 && resp.body[2..] == id + [0]
    case Opened(Some(s)) => maxSize >= 4 ==> resp.Success? && |resp.body| == 4 && Get16(resp.body, 2) == s
    case Data(bytes) => maxSize >= |bytes| + 2 ==> resp.Success? && |resp.body| >= 2 && resp.body[2..] == bytes
    case _ => true
  }

  lemma RepliesCarryResults(w: World, st: State, rq: Request)
    requires OpOf(w.crc, rq).Some?
    ensures Carries(Serve(w, st, rq).resp, Step(w, st, OpOf(w.crc, rq).value).result, rq.maxSize)
  {
    ServesCall(w, st, rq, OpOf(w.crc, rq).value);
    FramedCarries(w.crc, Step(w, st, OpOf(w.crc, rq).value).result, rq.maxSize);
  }

  lemma FramedCarries(crc: Crc, result: Result, maxSize: nat)
    ensures Carries(Framed(crc, Answered(result), maxSize), result, maxSize)
  {
    match result
    case Count(n) =>
      if maxSize >= 6 { CountReply(crc, n, maxSize); }
    case Name(id) =>
      assert ([0, 0] + id + [0])[2..] == id + [0];
    case Opened(Some(s)) =>
      if maxSize >= 4 { SessionReply(crc, s, maxSize); }
    case Data(bytes) =>
      assert ([0, 0] + bytes)[2..] == bytes;
    case _ =>
  }

  lemma CountReply(crc: Crc, n: dword, maxSize: nat)
    requires maxSize >= 6
    ensures var r := Framed(crc, Answered(Count(n)), maxSize);
            r.Success? && |r.body| == 6 && Get32(r.body, 2) == n
  {
    var r := Framed(crc, Answered(Count(n)), maxSize);
    assert r.body == r.body[..2] + LE32(n) + [];
    Get32AfterLE32(r.body[..2], n, []);
  }

  lemma SessionReply(crc: Crc, s: word, maxSize: nat)
    requires maxSize >= 4
    ensures var r := Framed(crc, Answered(Opened(Some(s))), maxSize);
            r.Success? && |r.body| == 4 && Get16(r.body, 2) == s
  {
    var r := Framed(crc, Answered(Opened(Some(s))), maxSize);
    assert r.body == r.body[..2] + LE16(s) + [];
    Get16AfterLE16(r.body[..2], s, []);
  }

  // What a client is told about sessions and paths

  /** Deleting a path some live session is on is an error, as it is without an owner, and no handler is asked
      to delete anything. */
  lemma DeleteOfOpenBlobFails(w: World, st: State, rq: Request, s: word)
    requires OpOf(w.crc, rq).Some? && OpOf(w.crc, rq).value.Delete?
    requires s in st.sessions && st.sessions[s].blobId == OpOf(w.crc, rq).value.path
    ensures Serve(w, st, rq).resp == Failure(UnspecifiedError)
    ensures Serve(w, st, rq).state.log == Find(w, st.log, st.handlers, OpOf(w.crc, rq).value.path).log
  {
    PathCallsRouted(w, st, OpOf(w.crc, rq).value);
    RefusalsAreErrors(w, st, rq);
  }

  /** A session request for an id that is not live, or without the flag it needs, changes nothing. A read is
      answered with success and no bytes, every other one with an unspecified error. */
  lemma UnroutedRequests(w: World, st: State, rq: Request)
    requires Sound(w, st) && OpOf(w.crc, rq).Some? && Forwarded(OpOf(w.crc, rq).value).Some?
    requires !GetsThrough(st, OpOf(w.crc, rq).value)
    ensures var served := Serve(w, st, rq);
            && served.state == st
            && (if OpOf(w.crc, rq).value.Read?
                then rq.maxSize >= 2 ==> served.resp.Success? && |served.resp.body| == 2
                else served.resp == Failure(UnspecifiedError))
  {
    RoutedExactlyWhen(w, st, OpOf(w.crc, rq).value);
    RefusalsAreErrors(w, st, rq);
    RepliesCarryResults(w, st, rq);
  }

  /** A session request that gets through is answered by its handler: an error exactly when the handler
      refuses, and a read, which cannot be refused, with the handler's bytes. */
  lemma RoutedRequests(w: World, st: State, rq: Request)
    requires Sound(w, st) && OpOf(w.crc, rq).Some? && Forwarded(OpOf(w.crc, rq).value).Some?
    requires GetsThrough(st, OpOf(w.crc, rq).value)
    ensures var op := OpOf(w.crc, rq).value;
            var a := w.answer(st.log, st.sessions[op.session].handler, Forwarded(op).value);
            var resp := Serve(w, st, rq).resp;
            && (op.Read? && rq.maxSize >= |a.bytes| + 2 ==>
                  resp.Success? && |resp.body| >= 2 && resp.body[2..] == a.bytes)
            && (!op.Read? && !a.ok ==> resp == Failure(UnspecifiedError))
            && (!op.Read? && !op.Stat? && a.ok ==> resp == Success([]))
  {
    RoutedExactlyWhen(w, st, OpOf(w.crc, rq).value);
    RefusalsAreErrors(w, st, rq);
    RepliesCarryResults(w, st, rq);
  }
}
