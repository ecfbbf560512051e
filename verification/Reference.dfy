/** The simple machine the manager refines: one map from session id to session, and the history of what
    the handlers were asked. It has no reference counts and no index by handler. */
module Reference {
  import opened BlobTypes
  import opened OrderedIds
  import opened SessionIds

  datatype Session = Session(blobId: Text, handler: HandlerId, flags: word, lastActionTime: Time)

  type Sessions = map<word, Session>

  datatype State = State(
    handlers: seq<HandlerId>,
    ids: seq<Text>,
    next: word,
    sessions: Sessions,
    log: Log)

  /** A call of a public BlobManager method. `now` is the clock when the method reads it; `later` is the
      clock when a successful open makes its entry, which is after the handlers have run. */
  datatype Op =
    | Register(handler: Option<HandlerId>)
    | BuildList
    | GetId(index: dword)
    | GetSession
    | Open(flags: word, path: Text, now: Time, later: Time)
    | StatPath(path: Text)
    | Stat(session: word, now: Time)
    | Commit(session: word, data: seq<byte>, now: Time)
    | Close(session: word, now: Time)
    | Read(session: word, offset: dword, size: dword, now: Time)
    | Write(session: word, offset: dword, data: seq<byte>, now: Time)
    | Delete(path: Text)
    | WriteMeta(session: word, offset: dword, data: seq<byte>, now: Time)

  datatype Result =
    | Done(ok: bool)
    | Count(n: dword)
    | Name(id: Text)
    | Opened(session: Option<word>)
    | Meta(meta: Option<BlobMeta>)
    | Data(bytes: seq<byte>)

  datatype Outcome = Outcome(state: State, result: Result)

  function Initial(next: word): State {
    State([], [], next, map[], [])
  }

  /** The sessions of handler `h`, and the sessions on path `p`. */
  function Of(sessions: Sessions, h: HandlerId): set<word> {
    set s | s in sessions && sessions[s].handler == h
  }

  function On(sessions: Sessions, p: Text): set<word> {
    set s | s in sessions && sessions[s].blobId == p
  }

  /** The first of `handlers`, in registration order, that answers that it owns `path`. */
  datatype Found = Found(log: Log, handler: Option<HandlerId>)

  function Find(w: World, log: Log, handlers: seq<HandlerId>, path: Text): Found
    decreases |handlers|
  {
    if handlers == [] then Found(log, None)
    else
      var log' := Told(w, log, handlers[0], AskCanHandle(path));
      if w.answer(log, handlers[0], AskCanHandle(path)).ok then Found(log', Some(handlers[0]))
      else Find(w, log', handlers[1..], path)
  }

  datatype Listing = Listing(log: Log, ids: seq<Text>)

  function ListAll(w: World, log: Log, handlers: seq<HandlerId>): Listing
    decreases |handlers|
  {
    if handlers == [] then Listing(log, [])
    else
      var rest := ListAll(w, Told(w, log, handlers[0], AskIds), handlers[1..]);
      Listing(rest.log, w.answer(log, handlers[0], AskIds).ids + rest.ids)
  }

  /** The sessions of `h` idle for at least the timeout. */
  function Stale(w: World, sessions: Sessions, h: HandlerId, now: Time): set<word> {
    set s | s in sessions && sessions[s].handler == h && now - sessions[s].lastActionTime >= w.timeout
  }

  function ExpireOne(w: World, st: State, h: HandlerId, s: word): State {
    st.(log := Told(w, st.log, h, AskExpire(s)),
        sessions := if w.answer(st.log, h, AskExpire(s)).ok then st.sessions - {s} else st.sessions)
  }

  function ExpireAll(w: World, st: State, h: HandlerId, order: seq<word>): State
    decreases |order|
  {
    if order == [] then st else ExpireAll(w, ExpireOne(w, st, h, order[0]), h, order[1..])
  }

  function Sweep(w: World, st: State, h: HandlerId, now: Time): State {
    ExpireAll(w, st, h, Ascending(Stale(w, st.sessions, h, now)))
  }

  /** Whether session `s` is live with one of the flags in `required`. */
  predicate Admits(sessions: Sessions, s: word, required: word) {
    s in sessions && And(sessions[s].flags, required) != 0
  }

  function Touched(sessions: Sessions, s: word, now: Time): Sessions
    requires s in sessions
  {
    sessions[s := sessions[s].(lastActionTime := now)]
  }

  /** The state after a session call that was let through, and the handler's answer to it. */
  datatype Routed = Routed(state: State, answer: Answer)

  function Route(w: World, st: State, s: word, now: Time, c: Call): Routed
    requires s in st.sessions
  {
    var h := st.sessions[s].handler;
    Routed(st.(sessions := Touched(st.sessions, s, now), log := Told(w, st.log, h, c)), w.answer(st.log, h, c))
  }

  function RouteOk(w: World, st: State, s: word, required: word, now: Time, c: Call): Outcome {
    if !Admits(st.sessions, s, required) then Outcome(st, Done(false))
    else
      var r := Route(w, st, s, now, c);
      Outcome(r.state, Done(r.answer.ok))
  }

  function OpenStep(w: World, st: State, flags: word, path: Text, now: Time, later: Time): Outcome {
    var found := Find(w, st.log, st.handlers, path);
    var asked := st.(log := found.log);
    if found.handler.None? then Outcome(asked, Opened(None))
    else
      var h := found.handler.value;
      var allotted := Allot(st.next, st.sessions.Keys);
      var moved := asked.(next := allotted.next);
      if allotted.id.None? || And(flags, READ_OR_WRITE) == 0 then Outcome(moved, Opened(None))
      else
        OpenOnStep(w, moved, h, allotted.id.value, flags, path, now, later)
  }

  /** Sweep the handler's stale sessions, offer it the new one, and record it if accepted. */
  function OpenOnStep(w: World, st: State, h: HandlerId, s: word, flags: word, path: Text, now: Time, later: Time)
    : Outcome
  {
    var swept := Sweep(w, st, h, now);
    var told := swept.(log := Told(w, swept.log, h, AskOpen(s, flags, path)));
    if !w.answer(swept.log, h, AskOpen(s, flags, path)).ok then Outcome(told, Opened(None))
    else Outcome(told.(sessions := swept.sessions[s := Session(path, h, flags, later)]), Opened(Some(s)))
  }

  function StatPathStep(w: World, st: State, path: Text): Outcome {
    var found := Find(w, st.log, st.handlers, path);
    if found.handler.None? then Outcome(st.(log := found.log), Meta(None))
    else
      var h := found.handler.value;
      var a := w.answer(found.log, h, AskStatPath(path));
      Outcome(st.(log := Told(w, found.log, h, AskStatPath(path))), Meta(if a.ok then Some(a.meta) else None))
  }

  function DeleteStep(w: World, st: State, path: Text): Outcome {
    var found := Find(w, st.log, st.handlers, path);
    if found.handler.None? || On(st.sessions, path) != {} then Outcome(st.(log := found.log), Done(false))
    else
      var h := found.handler.value;
      Outcome(st.(log := Told(w, found.log, h, AskDelete(path))),
              Done(w.answer(found.log, h, AskDelete(path)).ok))
  }

  function CloseStep(w: World, st: State, s: word, now: Time): Outcome {
    if !Admits(st.sessions, s, ANY_FLAG) then Outcome(st, Done(false))
    else
      var r := Route(w, st, s, now, AskClose(s));
      if r.answer.ok then Outcome(r.state.(sessions := r.state.sessions - {s}), Done(true))
      else Outcome(r.state, Done(false))
  }

  function StatStep(w: World, st: State, s: word, now: Time): Outcome {
    if !Admits(st.sessions, s, ANY_FLAG) then Outcome(st, Meta(None))
    else
      var r := Route(w, st, s, now, AskStat(s));
      Outcome(r.state, Meta(if r.answer.ok then Some(r.answer.meta) else None))
  }

  function ReadStep(w: World, st: State, s: word, offset: dword, size: dword, now: Time): Outcome {
    if !Admits(st.sessions, s, READ) then Outcome(st, Data([]))
    else
      var r := Route(w, st, s, now, AskRead(s, offset, size));
      Outcome(r.state, Data(r.answer.bytes))
  }

  function Step(w: World, st: State, op: Op): Outcome {
    match op
    case Register(handler) =>
      if handler.None? then Outcome(st, Done(false))
      else Outcome(st.(handlers := st.handlers + [handler.value]), Done(true))
    case BuildList =>
      var l := ListAll(w, st.log, st.handlers);
      Outcome(st.(log := l.log, ids := l.ids), Count(|l.ids| % 0x1_0000_0000))
    case GetId(index) =>
      Outcome(st, Name(if index >= |st.ids| then [] else st.ids[index]))
    case GetSession =>
      var allotted := Allot(st.next, st.sessions.Keys);
      Outcome(st.(next := allotted.next), Opened(allotted.id))
    case Open(flags, path, now, later) => OpenStep(w, st, flags, path, now, later)
    case StatPath(path) => StatPathStep(w, st, path)
    case Delete(path) => DeleteStep(w, st, path)
    case Close(s, now) => CloseStep(w, st, s, now)
    case Stat(s, now) => StatStep(w, st, s, now)
    case Read(s, offset, size, now) => ReadStep(w, st, s, offset, size, now)
    case Commit(s, data, now) => RouteOk(w, st, s, ANY_FLAG, now, AskCommit(s, data))
    case Write(s, offset, data, now) => RouteOk(w, st, s, WRITE, now, AskWrite(s, offset, data))
    case WriteMeta(s, offset, data, now) => RouteOk(w, st, s, ANY_FLAG, now, AskWriteMeta(s, offset, data))
  }

  /** A whole run, and its results in order. */
  function Run(w: World, st: State, ops: seq<Op>): State
    decreases |ops|
  {
    if ops == [] then st else Run(w, Step(w, st, ops[0]).state, ops[1..])
  }

  function Results(w: World, st: State, ops: seq<Op>): (r: seq<Result>)
    ensures |r| == |ops|
    decreases |ops|
  {
    if ops == [] then [] else [Step(w, st, ops[0]).result] + Results(w, Step(w, st, ops[0]).state, ops[1..])
  }
}
