/** End-to-end blob transfer through the command layer, with other clients' requests in between. */
module Transfer {
  import opened BlobTypes
  import opened Reference
  import opened Contract
  import opened History
  import opened Discipline
  import opened ExampleSpec
  import opened Coupling
  import opened Wire
  import opened WireTheory

  /** A request that neither writes nor closes session `s`. */
  ghost predicate LeavesAlone(op: Op, s: word) {
    && (op.Write? ==> op.session != s)
    && (op.Close? ==> op.session != s)
  }

  ghost predicate RequestLeavesAlone(crc: Crc, rq: Request, s: word) {
    OpOf(crc, rq).Some? ==> LeavesAlone(OpOf(crc, rq).value, s)
  }

  lemma ServeIsStep(w: World, st: State, rq: Request)
    ensures Serve(w, st, rq).state == match OpOf(w.crc, rq) case None => st case Some(op) => Step(w, st, op).state
  {
  }

  /** What the example's session `s` holds, in a sound state in which both tables have it. */
  datatype Held = Held(flags: word, blob: Blob)

  ghost function Seen(w: World, st: State, e: HandlerId, fill: Fill, s: word): Option<Held> {
    if IsExample(w, e, fill) && Sound(w, st) && s in st.sessions && st.sessions[s].handler == e
       && s in Replay(fill, st.log, e)
    then Some(Held(st.sessions[s].flags, Replay(fill, st.log, e)[s]))
    else None
  }

  lemma {:induction false} HistoryKeepsBlob(fill: Fill, before: Log, after: Log, e: HandlerId, op: Op, s: word)
    requires Continues(before, after, op) && LeavesAlone(op, s) && s in Replay(fill, before, e)
    ensures s in Replay(fill, after, e) && Replay(fill, after, e)[s] == Replay(fill, before, e)[s]
    decreases |after|
  {
    if |after| == |before| {
      assert after == before;
    } else {
      var n := |after| - 1;
      var earlier := after[..n];
      assert earlier[..|before|] == before;
      assert forall i :: |before| <= i < |earlier| ==> earlier[i] == after[i];
      HistoryKeepsBlob(fill, before, earlier, e, op, s);
      assert MayAsk(op, after[n].call);
      NextOnSession(Replay(fill, earlier, e), after[n].call, fill(earlier), s);
    }
  }

  /** Nothing another request does touches the blob, or ends the session: not even a sweep. */
  lemma OthersKeepTheBlob(w: World, st: State, e: HandlerId, fill: Fill, s: word, flags: word, b: Blob, rq: Request)
    requires Seen(w, st, e, fill, s) == Some(Held(flags, b)) && RequestLeavesAlone(w.crc, rq, s)
    ensures Seen(w, Serve(w, st, rq).state, e, fill, s) == Some(Held(flags, b))
  {
    ServeIsStep(w, st, rq);
    if OpOf(w.crc, rq).Some? {
      var op := OpOf(w.crc, rq).value;
      var after := Step(w, st, op).state;
      StepIsSound(w, st, op);
      StepContinues(w, st, op);
      HistoryKeepsBlob(fill, st.log, after.log, e, op, s);
      TablesAgree(w, after, e, fill);
      StepKeepsHolder(w, st, op, s);
      assert Holders(after.sessions)[s] == Holders(st.sessions)[s];
    }
  }

  /** A session call of our own: it reaches the example, and only a write changes the blob. */
  lemma OwnCall(w: World, st: State, e: HandlerId, fill: Fill, s: word, flags: word, b: Blob, op: Op)
    requires Seen(w, st, e, fill, s) == Some(Held(flags, b))
    requires Forwarded(op).Some? && op.session == s && !op.Close? && GetsThrough(st, op)
    ensures var after := Step(w, st, op).state;
            Seen(w, after, e, fill, s) == Some(Held(flags, if op.Write? then Written(b, op.offset, op.data) else b))
  {
    var c := Forwarded(op).value;
    var after := Step(w, st, op).state;
    StepIsSound(w, st, op);
    RoutedExactlyWhen(w, st, op);
    ReplayAfter(fill, st.log, Event(e, c, w.answer(st.log, e, c)), e);
    NextOnSession(Replay(fill, st.log, e), c, fill(st.log), s);
  }

  // The client's script: its own requests, each about one part of the transfer, among those of others.
  datatype Turn<+T> = Mine(part: T, maxSize: nat, now: Time, later: Time) | Theirs(rq: Request)

  ghost predicate Polite<T>(crc: Crc, s: word, turns: seq<Turn<T>>) {
    forall i :: 0 <= i < |turns| && turns[i].Theirs? ==> RequestLeavesAlone(crc, turns[i].rq, s)
  }

  lemma PoliteTail<T>(crc: Crc, s: word, turns: seq<Turn<T>>)
    requires turns != [] && Polite(crc, s, turns)
    ensures Polite(crc, s, turns[1..])
  {
    assert forall i :: 0 <= i < |turns[1..]| ==> turns[1..][i] == turns[i + 1];
  }

  // A chunk is not empty, and a read leaves room for the crc of its reply.
  predicate GoodChunk(t: Turn<seq<byte>>) {
    t.Mine? ==> t.part != []
  }

  predicate GoodRead(t: Turn<dword>) {
    t.Mine? ==> t.part + 2 <= t.maxSize
  }

  predicate AllChunksGood(turns: seq<Turn<seq<byte>>>) {
    turns == [] || (GoodChunk(turns[0]) && AllChunksGood(turns[1..]))
  }

  predicate AllReadsGood(turns: seq<Turn<dword>>) {
    turns == [] || (GoodRead(turns[0]) && AllReadsGood(turns[1..]))
  }

  function WriteRequest(crc: Crc, s: word, offset: dword, t: Turn<seq<byte>>): Request
    requires t.Mine? && GoodChunk(t)
  {
    Request(Number(BlobWrite), Encode(crc, Write(s, offset, t.part, t.now)), t.maxSize, t.now, t.later)
  }

  function ReadRequest(crc: Crc, s: word, offset: dword, t: Turn<dword>): Request
    requires t.Mine?
  {
    Request(Number(BlobRead), Encode(crc, Read(s, offset, t.part, t.now)), t.maxSize, t.now, t.later)
  }

  function OpenRequest(crc: Crc, flags: word, path: Text, t: Turn<()>): Request
    requires t.Mine? && path != []
  {
    Request(Number(BlobOpen), Encode(crc, Open(flags, path, t.now, t.later)), t.maxSize, t.now, t.later)
  }

  /** The session id a client reads from the reply to its open. */
  function SessionIn(resp: Resp): word {
    if resp.Success? && |resp.body| >= 4 then Get16(resp.body, 2) else 0
  }

  function StatRequest(crc: Crc, s: word, t: Turn<()>): Request
    requires t.Mine?
  {
    Request(Number(BlobSessionStat), Encode(crc, Stat(s, t.now)), t.maxSize, t.now, t.later)
  }

  function Payload(turns: seq<Turn<seq<byte>>>): seq<byte> {
    if turns == [] then [] else (if turns[0].Mine? then turns[0].part else []) + Payload(turns[1..])
  }

  function Wanted(turns: seq<Turn<dword>>): nat {
    if turns == [] then 0 else (if turns[0].Mine? then turns[0].part else 0) + Wanted(turns[1..])
  }

  // What answers the requests.
  type Server = (State, Request) -> Served

  function ServerOf(w: World): Server {
    (st, rq) => Serve(w, st, rq)
  }

  datatype Uploaded = Uploaded(state: State, accepted: bool)

  /** Sends the script, each chunk to where the one before it ended. */
  ghost function Upload(serve: Server, crc: Crc, st: State, s: word, offset: nat, turns: seq<Turn<seq<byte>>>): Uploaded
    requires AllChunksGood(turns) && offset + |Payload(turns)| <= BUFFER_SIZE
    decreases |turns|
  {
    if turns == [] then Uploaded(st, true)
    else if turns[0].Theirs? then Upload(serve, crc, serve(st, turns[0].rq).state, s, offset, turns[1..])
    else
      var served := serve(st, WriteRequest(crc, s, offset, turns[0]));
      var rest := Upload(serve, crc, served.state, s, offset + |turns[0].part|, turns[1..]);
      Uploaded(rest.state, served.resp == Success([]) && rest.accepted)
  }

  datatype Downloaded = Downloaded(state: State, bytes: seq<byte>)

  /** Sends the script, each read from where the one before it ended, and collects what follows the crc in
      each reply. */
  ghost function Download(serve: Server, crc: Crc, st: State, s: word, offset: nat, turns: seq<Turn<dword>>): Downloaded
    requires offset + Wanted(turns) <= BUFFER_SIZE
    decreases |turns|
  {
    if turns == [] then Downloaded(st, [])
    else if turns[0].Theirs? then Download(serve, crc, serve(st, turns[0].rq).state, s, offset, turns[1..])
    else
      var served := serve(st, ReadRequest(crc, s, offset, turns[0]));
      var rest := Download(serve, crc, served.state, s, offset + turns[0].part, turns[1..]);
      Downloaded(rest.state, BodyOf(served.resp) + rest.bytes)
  }

  function BodyOf(resp: Resp): seq<byte> {
    if resp.Success? && |resp.body| >= 2 then resp.body[2..] else []
  }

  // What the induction over a script needs of one request

  type View = State -> Option<Held>

  ghost predicate OthersDoNoHarm(serve: Server, crc: Crc, s: word, view: View) {
    forall st, rq {:trigger serve(st, rq)} ::
      view(st).Some? && RequestLeavesAlone(crc, rq, s) ==> view(serve(st, rq).state) == view(st)
  }

  ghost predicate WritesLand(serve: Server, crc: Crc, s: word, view: View, flags: word) {
    forall st, offset: dword, t: Turn<seq<byte>> {:trigger serve(st, WriteRequest(crc, s, offset, t))} ::
      t.Mine? && GoodChunk(t) && view(st).Some? && view(st).value.flags == flags && Fits(offset, t.part) ==>
        var served := serve(st, WriteRequest(crc, s, offset, t));
        && served.resp == Success([])
        && view(served.state) == Some(Held(flags, Written(view(st).value.blob, offset, t.part)))
  }

  ghost predicate ReadsReturn(serve: Server, crc: Crc, s: word, view: View, flags: word) {
    forall st, offset: dword, t: Turn<dword> {:trigger serve(st, ReadRequest(crc, s, offset, t))} ::
      t.Mine? && GoodRead(t) && view(st).Some? && view(st).value.flags == flags && offset + t.part <= BUFFER_SIZE ==>
        var served := serve(st, ReadRequest(crc, s, offset, t));
        && BodyOf(served.resp) == Slice(view(st).value.blob, offset, t.part)
        && view(served.state) == view(st)
  }

  /** The blob once `data` has been written from `offset` on, `offset` being no further than its length. */
  function Filled(b: Blob, offset: nat, data: seq<byte>): Blob
    requires offset + |data| <= BUFFER_SIZE
  {
    b.(buffer := Overlay(b.buffer, offset, data),
       length := if offset + |data| > b.length then offset + |data| else b.length)
  }

  lemma FilledTwice(b: Blob, offset: nat, first: seq<byte>, rest: seq<byte>)
    requires offset + |first| + |rest| <= BUFFER_SIZE && first != []
    ensures Filled(Written(b, offset, first), offset + |first|, rest) == Filled(b, offset, first + rest)
  {
    var once := Overlay(b.buffer, offset, first);
    assert Overlay(once, offset + |first|, rest) == Overlay(b.buffer, offset, first + rest);
  }

  lemma FilledReadsBack(b: Blob, data: seq<byte>)
    requires |data| <= BUFFER_SIZE
    ensures Slice(Filled(b, 0, data), 0, |data|) == data
  {
  }

  lemma SlicesJoin(b: Blob, offset: nat, first: nat, rest: nat)
    requires offset + first + rest <= BUFFER_SIZE
    ensures Slice(b, offset, first) + Slice(b, offset + first, rest) == Slice(b, offset, first + rest)
  {
  }

  lemma {:induction false} UploadStores(serve: Server, crc: Crc, s: word, view: View, flags: word, st: State,
                                        offset: nat, turns: seq<Turn<seq<byte>>>)
    requires OthersDoNoHarm(serve, crc, s, view) && WritesLand(serve, crc, s, view, flags)
    requires view(st).Some? && view(st).value.flags == flags && offset <= view(st).value.blob.length
    requires AllChunksGood(turns) && Polite(crc, s, turns)
    requires offset + |Payload(turns)| <= BUFFER_SIZE
    ensures var up := Upload(serve, crc, st, s, offset, turns);
            && up.accepted
            && view(up.state) == Some(Held(flags, Filled(view(st).value.blob, offset, Payload(turns))))
    decreases |turns|
  {
    var b := view(st).value.blob;
    if turns == [] {
      assert Overlay(b.buffer, offset, []) == b.buffer;
    } else {
      var t, rest := turns[0], turns[1..];
      PoliteTail(crc, s, turns);
      if t.Theirs? {
        var after := serve(st, t.rq).state;
        assert view(after) == view(st);
        assert [] + Payload(rest) == Payload(rest);
        UploadStores(serve, crc, s, view, flags, after, offset, rest);
      } else {
        assert Fits(offset, t.part);
        var after := serve(st, WriteRequest(crc, s, offset, t)).state;
        assert view(after) == Some(Held(flags, Written(b, offset, t.part)));
        UploadStores(serve, crc, s, view, flags, after, offset + |t.part|, rest);
        FilledTwice(b, offset, t.part, Payload(rest));
      }
    }
  }

  lemma DownloadJoins(serve: Server, crc: Crc, s: word, b: Blob, st: State, offset: nat, turns: seq<Turn<dword>>)
    requires turns != [] && turns[0].Mine? && offset + Wanted(turns) <= BUFFER_SIZE
    requires BodyOf(serve(st, ReadRequest(crc, s, offset, turns[0])).resp) == Slice(b, offset, turns[0].part)
    requires Download(serve, crc, serve(st, ReadRequest(crc, s, offset, turns[0])).state, s,
                      offset + turns[0].part, turns[1..]).bytes
          == Slice(b, offset + turns[0].part, Wanted(turns[1..]))
    ensures Download(serve, crc, st, s, offset, turns).bytes == Slice(b, offset, Wanted(turns))
  {
    SlicesJoin(b, offset, turns[0].part, Wanted(turns[1..]));
  }

  lemma {:induction false} DownloadReturns(serve: Server, crc: Crc, s: word, view: View, flags: word, st: State,
                                           offset: nat, turns: seq<Turn<dword>>)
    requires OthersDoNoHarm(serve, crc, s, view) && ReadsReturn(serve, crc, s, view, flags)
    requires view(st).Some? && view(st).value.flags == flags
    requires AllReadsGood(turns) && Polite(crc, s, turns)
    requires offset + Wanted(turns) <= BUFFER_SIZE
    ensures var down := Download(serve, crc, st, s, offset, turns);
            && down.bytes == Slice(view(st).value.blob, offset, Wanted(turns))
            && view(down.state) == view(st)
    decreases |turns|
  {
    if turns != [] {
      var t, rest := turns[0], turns[1..];
      PoliteTail(crc, s, turns);
      if t.Theirs? {
        var after := serve(st, t.rq).state;
        assert view(after) == view(st);
        DownloadReturns(serve, crc, s, view, flags, after, offset, rest);
      } else {
        var b, served := view(st).value.blob, serve(st, ReadRequest(crc, s, offset, t));
        assert BodyOf(served.resp) == Slice(b, offset, t.part) && view(served.state) == view(st);
        DownloadReturns(serve, crc, s, view, flags, served.state, offset + t.part, rest);
        DownloadJoins(serve, crc, s, b, st, offset, turns);
      }
    }
  }

  // What one request does

  lemma RequestsAsk(crc: Crc, s: word, offset: dword)
    ensures forall t: Turn<seq<byte>> | t.Mine? && GoodChunk(t) ::
              OpOf(crc, WriteRequest(crc, s, offset, t)) == Some(Write(s, offset, t.part, t.now))
    ensures forall t: Turn<dword> | t.Mine? ::
              OpOf(crc, ReadRequest(crc, s, offset, t)) == Some(Read(s, offset, t.part, t.now))
  {
    forall t: Turn<seq<byte>> | t.Mine? && GoodChunk(t)
      ensures OpOf(crc, WriteRequest(crc, s, offset, t)) == Some(Write(s, offset, t.part, t.now))
    {
      RequestRoundTrip(crc, Write(s, offset, t.part, t.now), t.maxSize, t.now, t.later);
    }
    forall t: Turn<dword> | t.Mine?
      ensures OpOf(crc, ReadRequest(crc, s, offset, t)) == Some(Read(s, offset, t.part, t.now))
    {
      RequestRoundTrip(crc, Read(s, offset, t.part, t.now), t.maxSize, t.now, t.later);
    }
  }

  lemma OwnWriteResult(w: World, st: State, e: HandlerId, fill: Fill, s: word, flags: word, b: Blob, op: Op)
    requires Seen(w, st, e, fill, s) == Some(Held(flags, b)) && flags / 2 % 2 == 1
    requires op.Write? && op.session == s && Fits(op.offset, op.data)
    ensures Step(w, st, op).result == Done(true)
    ensures Seen(w, Step(w, st, op).state, e, fill, s) == Some(Held(flags, Written(b, op.offset, op.data)))
  {
    OwnCall(w, st, e, fill, s, flags, b, op);
    AdmittedIffFlagged(w, st, op);
  }

  lemma OwnWrite(w: World, st: State, e: HandlerId, fill: Fill, s: word, flags: word, b: Blob,
                 offset: dword, t: Turn<seq<byte>>)
    requires Seen(w, st, e, fill, s) == Some(Held(flags, b)) && flags / 2 % 2 == 1
    requires t.Mine? && GoodChunk(t) && Fits(offset, t.part)
    ensures var served := Serve(w, st, WriteRequest(w.crc, s, offset, t));
            && served.resp == Success([])
            && Seen(w, served.state, e, fill, s) == Some(Held(flags, Written(b, offset, t.part)))
  {
    var op := Write(s, offset, t.part, t.now);
    RequestsAsk(w.crc, s, offset);
    ServesCall(w, st, WriteRequest(w.crc, s, offset, t), op);
    OwnWriteResult(w, st, e, fill, s, flags, b, op);
  }

  /** A write that would end past the buffer is reported as an error and stores nothing. */
  lemma OutOfRoomIsReported(w: World, st: State, e: HandlerId, fill: Fill, s: word, flags: word, b: Blob,
                            offset: dword, t: Turn<seq<byte>>)
    requires Seen(w, st, e, fill, s) == Some(Held(flags, b)) && flags / 2 % 2 == 1
    requires t.Mine? && GoodChunk(t) && offset + |t.part| > 1024
    ensures var served := Serve(w, st, WriteRequest(w.crc, s, offset, t));
            && served.resp == Failure(UnspecifiedError)
            && Seen(w, served.state, e, fill, s) == Some(Held(flags, b))
  {
    var op := Write(s, offset, t.part, t.now);
    RequestsAsk(w.crc, s, offset);
    ServesCall(w, st, WriteRequest(w.crc, s, offset, t), op);
    OwnRefusedWrite(w, st, e, fill, s, flags, b, op);
  }

  lemma OwnRefusedWrite(w: World, st: State, e: HandlerId, fill: Fill, s: word, flags: word, b: Blob, op: Op)
    requires Seen(w, st, e, fill, s) == Some(Held(flags, b)) && flags / 2 % 2 == 1
    requires op.Write? && op.session == s && op.data != [] && op.offset + |op.data| > 1024
    ensures Step(w, st, op).result == Done(false)
    ensures Seen(w, Step(w, st, op).state, e, fill, s) == Some(Held(flags, b))
  {
    AcceptsExactly(Replay(fill, st.log, e), AskWrite(s, op.offset, op.data));
    OwnCall(w, st, e, fill, s, flags, b, op);
    AdmittedIffFlagged(w, st, op);
  }

  lemma OwnReadResult(w: World, st: State, e: HandlerId, fill: Fill, s: word, flags: word, b: Blob, op: Op)
    requires Seen(w, st, e, fill, s) == Some(Held(flags, b)) && flags % 2 == 1
    requires op.Read? && op.session == s && op.offset + op.size <= BUFFER_SIZE
    ensures Step(w, st, op).result == Data(Slice(b, op.offset, op.size))
    ensures Seen(w, Step(w, st, op).state, e, fill, s) == Some(Held(flags, b))
  {
    OwnCall(w, st, e, fill, s, flags, b, op);
    AdmittedIffFlagged(w, st, op);
  }

  lemma OwnRead(w: World, st: State, e: HandlerId, fill: Fill, s: word, flags: word, b: Blob,
                offset: dword, t: Turn<dword>)
    requires Seen(w, st, e, fill, s) == Some(Held(flags, b)) && flags % 2 == 1
    requires t.Mine? && GoodRead(t) && offset + t.part <= BUFFER_SIZE
    ensures var served := Serve(w, st, ReadRequest(w.crc, s, offset, t));
            && BodyOf(served.resp) == Slice(b, offset, t.part)
            && Seen(w, served.state, e, fill, s) == Some(Held(flags, b))
  {
    var op := Read(s, offset, t.part, t.now);
    var rq := ReadRequest(w.crc, s, offset, t);
    RequestsAsk(w.crc, s, offset);
    ServesCall(w, st, rq, op);
    OwnReadResult(w, st, e, fill, s, flags, b, op);
    DataReply(w.crc, Slice(b, offset, t.part), t.maxSize);
  }

  lemma DataReply(crc: Crc, bytes: seq<byte>, maxSize: nat)
    requires |bytes| + 2 <= maxSize
    ensures BodyOf(Framed(crc, Answered(Data(bytes)), maxSize)) == bytes
  {
    assert ([0, 0] + bytes)[2..] == bytes;
    var header := LE16(crc(bytes));
    assert (header + bytes)[2..] == bytes;
  }

  ghost function ViewOf(w: World, e: HandlerId, fill: Fill, s: word): View {
    st => Seen(w, st, e, fill, s)
  }

  lemma ServerDoesNoHarm(w: World, e: HandlerId, fill: Fill, s: word)
    requires IsExample(w, e, fill)
    ensures OthersDoNoHarm(ServerOf(w), w.crc, s, ViewOf(w, e, fill, s))
  {
    var serve, view := ServerOf(w), ViewOf(w, e, fill, s);
    forall st, rq | view(st).Some? && RequestLeavesAlone(w.crc, rq, s)
      ensures view(serve(st, rq).state) == view(st)
    {
      OthersKeepTheBlob(w, st, e, fill, s, view(st).value.flags, view(st).value.blob, rq);
    }
  }

  lemma ServerLandsWrites(w: World, e: HandlerId, fill: Fill, s: word, flags: word)
    requires IsExample(w, e, fill) && flags / 2 % 2 == 1
    ensures WritesLand(ServerOf(w), w.crc, s, ViewOf(w, e, fill, s), flags)
  {
    var serve, view := ServerOf(w), ViewOf(w, e, fill, s);
    forall st, offset: dword, t: Turn<seq<byte>> |
      t.Mine? && GoodChunk(t) && view(st).Some? && view(st).value.flags == flags && Fits(offset, t.part)
      ensures var served := serve(st, WriteRequest(w.crc, s, offset, t));
              && served.resp == Success([])
              && view(served.state) == Some(Held(flags, Written(view(st).value.blob, offset, t.part)))
    {
      OwnWrite(w, st, e, fill, s, flags, view(st).value.blob, offset, t);
    }
  }

  lemma ServerReturnsReads(w: World, e: HandlerId, fill: Fill, s: word, flags: word)
    requires IsExample(w, e, fill) && flags % 2 == 1
    ensures ReadsReturn(ServerOf(w), w.crc, s, ViewOf(w, e, fill, s), flags)
  {
    var serve, view := ServerOf(w), ViewOf(w, e, fill, s);
    forall st, offset: dword, t: Turn<dword> |
      t.Mine? && GoodRead(t) && view(st).Some? && view(st).value.flags == flags && offset + t.part <= BUFFER_SIZE
      ensures var served := serve(st, ReadRequest(w.crc, s, offset, t));
              && BodyOf(served.resp) == Slice(view(st).value.blob, offset, t.part)
              && view(served.state) == view(st)
    {
      OwnRead(w, st, e, fill, s, flags, view(st).value.blob, offset, t);
    }
  }

  // A session that was just opened

  /** A session the example has just accepted is empty, whatever its buffer holds. */
  lemma FreshSession(w: World, st: State, e: HandlerId, fill: Fill, op: Op, s: word)
    requires IsExample(w, e, fill) && Sound(w, st) && op.Open?
    requires Find(w, st.log, st.handlers, op.path).handler == Some(e)
    requires Step(w, st, op).result == Opened(Some(s))
    ensures var held := Seen(w, Step(w, st, op).state, e, fill, s);
            && held.Some? && held.value.flags == op.flags
            && held.value.blob.length == 0 && held.value.blob.state == OPEN_READ_WRITE
  {
    var after := Step(w, st, op).state;
    StepIsSound(w, st, op);
    OpenChangesOneEntry(w, st, op);
    var earlier := OpenAsksLast(w, st, op);
    ReplayAfter(fill, earlier, after.log[|earlier|], e);
  }

  lemma UploadWorks(w: World, st: State, e: HandlerId, fill: Fill, s: word, flags: word, b: Blob,
                    up: seq<Turn<seq<byte>>>)
    requires Seen(w, st, e, fill, s) == Some(Held(flags, b)) && flags / 2 % 2 == 1
    requires AllChunksGood(up) && Polite(w.crc, s, up) && |Payload(up)| <= BUFFER_SIZE
    ensures var sent := Upload(ServerOf(w), w.crc, st, s, 0, up);
            && sent.accepted
            && Seen(w, sent.state, e, fill, s) == Some(Held(flags, Filled(b, 0, Payload(up))))
  {
    var view := ViewOf(w, e, fill, s);
    ServerDoesNoHarm(w, e, fill, s);
    ServerLandsWrites(w, e, fill, s, flags);
    assert view(st) == Some(Held(flags, b));
    UploadStores(ServerOf(w), w.crc, s, view, flags, st, 0, up);
    var sent := Upload(ServerOf(w), w.crc, st, s, 0, up);
    assert view(sent.state) == Seen(w, sent.state, e, fill, s);
  }

  lemma DownloadWorks(w: World, st: State, e: HandlerId, fill: Fill, s: word, flags: word, b: Blob,
                      down: seq<Turn<dword>>)
    requires Seen(w, st, e, fill, s) == Some(Held(flags, b)) && flags % 2 == 1
    requires AllReadsGood(down) && Polite(w.crc, s, down) && Wanted(down) <= BUFFER_SIZE
    ensures var received := Download(ServerOf(w), w.crc, st, s, 0, down);
            && received.bytes == Slice(b, 0, Wanted(down))
            && Seen(w, received.state, e, fill, s) == Some(Held(flags, b))
  {
    var view := ViewOf(w, e, fill, s);
    ServerDoesNoHarm(w, e, fill, s);
    ServerReturnsReads(w, e, fill, s, flags);
    assert view(st) == Some(Held(flags, b));
    DownloadReturns(ServerOf(w), w.crc, s, view, flags, st, 0, down);
    var received := Download(ServerOf(w), w.crc, st, s, 0, down);
    assert view(received.state) == Seen(w, received.state, e, fill, s);
  }

  lemma StatReports(w: World, st: State, e: HandlerId, fill: Fill, s: word, t: Turn<()>)
    requires Seen(w, st, e, fill, s).Some? && t.Mine? && t.maxSize >= 9
    ensures var stat := Serve(w, st, StatRequest(w.crc, s, t)).resp;
            && stat.Success? && |stat.body| == 9
            && Get16(stat.body, 2) == Seen(w, st, e, fill, s).value.blob.state
            && Get32(stat.body, 4) == Seen(w, st, e, fill, s).value.blob.length
  {
    var op := Stat(s, t.now);
    var b := Seen(w, st, e, fill, s).value.blob;
    RequestRoundTrip(w.crc, op, t.maxSize, t.now, t.later);
    ServesCall(w, st, StatRequest(w.crc, s, t), op);
    LiveSessionsRespond(w, st, e, fill, s, t.now);
    StatReplyLength(w.crc, BlobMeta(b.state, b.length, []), t.maxSize);
  }

  lemma BothFlags(flags: word)
    requires flags % 4 == 3
    ensures flags % 2 == 1 && flags / 2 % 2 == 1
  {
  }

  /** An open request is the manager's open, and a successful reply carries the session's id. */
  lemma OpenReplies(w: World, st: State, flags: word, path: Text, t: Turn<()>)
    requires t.Mine? && path != []
    ensures var served := Serve(w, st, OpenRequest(w.crc, flags, path, t));
            var o := Step(w, st, Open(flags, path, t.now, t.later));
            && served.state == o.state
            && (served.resp.Success? ==> |served.resp.body| == 4 && o.result == Opened(Some(SessionIn(served.resp))))
            && (o.result.Opened? && o.result.session.Some? && t.maxSize >= 4 ==> served.resp.Success?)
  {
    var op := Open(flags, path, t.now, t.later);
    var rq := OpenRequest(w.crc, flags, path, t);
    RequestRoundTrip(w.crc, op, t.maxSize, t.now, t.later);
    ServesCall(w, st, rq, op);
    OpenGivesOpened(w, st, op);
    OpenedReply(w.crc, Step(w, st, op).result.session, t.maxSize);
  }

  lemma OpenGivesOpened(w: World, st: State, op: Op)
    requires op.Open?
    ensures Step(w, st, op).result.Opened?
  {
  }

  lemma OpenedReply(crc: Crc, session: Option<word>, maxSize: nat)
    ensures var r := Framed(crc, Answered(Opened(session)), maxSize);
            && (r.Success? <==> session.Some? && maxSize >= 4)
            && (r.Success? ==> |r.body| == 4 && SessionIn(r) == session.value)
  {
    var r := Framed(crc, Answered(Opened(session)), maxSize);
    if r.Success? {
      assert r.body == r.body[..2] + LE16(session.value) + [];
      Get16AfterLE16(r.body[..2], session.value, []);
    }
  }

  /** The transfer theorem. From any reachable state, once an open request for a path of the
      example handler, for reading and writing, is answered with success, the client takes the session id from
      the reply. Then writing data of at most 1024 bytes from offset 0 in any split into non-empty chunks
      is accepted throughout; reading it back from offset 0 in any split returns it; and the session's stat
      reports its size. Between any two of these requests, other clients may send anything at all that does
      not write or close this very session. */
  lemma TransferWorks(w: World, seed: word, history: seq<Op>, e: HandlerId, fill: Fill,
                      path: Text, flags: word, opening: Turn<()>, s: word,
                      up: seq<Turn<seq<byte>>>, down: seq<Turn<dword>>, last: Turn<()>)
    requires IsExample(w, e, fill) && path != [] && flags % 4 == 3 && opening.Mine?
    requires var st := Run(w, Initial(seed), history);
             var served := Serve(w, st, OpenRequest(w.crc, flags, path, opening));
             && Find(w, st.log, st.handlers, path).handler == Some(e)
             && served.resp.Success? && s == SessionIn(served.resp)
    requires AllChunksGood(up) && Polite(w.crc, s, up)
    requires AllReadsGood(down) && Polite(w.crc, s, down)
    requires |Payload(up)| <= BUFFER_SIZE && Wanted(down) == |Payload(up)|
    requires last.Mine? && last.maxSize >= 9
    ensures var ready := Serve(w, Run(w, Initial(seed), history), OpenRequest(w.crc, flags, path, opening)).state;
            var sent := Upload(ServerOf(w), w.crc, ready, s, 0, up);
            var received := Download(ServerOf(w), w.crc, sent.state, s, 0, down);
            && sent.accepted
            && received.bytes == Payload(up)
            && var stat := Serve(w, received.state, StatRequest(w.crc, s, last)).resp;
               stat.Success? && |stat.body| == 9 && Get16(stat.body, 2) == 3 && Get32(stat.body, 4) == |Payload(up)|
  {
    var st := Run(w, Initial(seed), history);
    var open := Open(flags, path, opening.now, opening.later);
    ContractHonoured(w, seed, history);
    OpenReplies(w, st, flags, path, opening);
    FreshSession(w, st, e, fill, open, s);
    var ready := Step(w, st, open).state;
    var b := Seen(w, ready, e, fill, s).value.blob;
    BothFlags(flags);
    UploadWorks(w, ready, e, fill, s, flags, b, up);
    var sent := Upload(ServerOf(w), w.crc, ready, s, 0, up).state;
    FilledReadsBack(b, Payload(up));
    DownloadWorks(w, sent, e, fill, s, flags, Filled(b, 0, Payload(up)), down);
    StatReports(w, Download(ServerOf(w), w.crc, sent, s, 0, down).state, e, fill, s, last);
  }
}
