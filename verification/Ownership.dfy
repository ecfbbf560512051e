/** Which handler a path belongs to, when every handler's answer to canHandleBlob is a fixed predicate. */
module Ownership {
  import opened BlobTypes
  import opened Reference
  import opened Contract
  import opened History
  import opened Discipline

  type Owns = (HandlerId, Text) -> bool

  ghost predicate FixedOwners(w: World, owns: Owns) {
    forall log, h, path :: w.answer(log, h, AskCanHandle(path)).ok == owns(h, path)
  }

  function Owner(owns: Owns, handlers: seq<HandlerId>, path: Text): Option<HandlerId>
    decreases |handlers|
  {
    if handlers == [] then None
    else if owns(handlers[0], path) then Some(handlers[0])
    else Owner(owns, handlers[1..], path)
  }

  lemma {:induction false} FindIsOwner(w: World, owns: Owns, log: Log, handlers: seq<HandlerId>, path: Text)
    requires FixedOwners(w, owns)
    ensures Find(w, log, handlers, path).handler == Owner(owns, handlers, path)
    decreases |handlers|
  {
    if handlers != [] {
      FindIsOwner(w, owns, Told(w, log, handlers[0], AskCanHandle(path)), handlers[1..], path);
    }
  }

  /** Registering more handlers never takes a path away from its owner. */
  lemma {:induction false} OwnerIsStable(owns: Owns, handlers: seq<HandlerId>, more: seq<HandlerId>, path: Text)
    requires Owner(owns, handlers, path).Some?
    ensures Owner(owns, handlers + more, path) == Owner(owns, handlers, path)
    decreases |handlers|
  {
    if !owns(handlers[0], path) {
      assert (handlers + more)[1..] == handlers[1..] + more;
      OwnerIsStable(owns, handlers[1..], more, path);
    }
  }

  /** Every live session is with the owner of its path. */
  ghost predicate WithOwner(owns: Owns, st: State) {
    forall s :: s in st.sessions ==> Owner(owns, st.handlers, st.sessions[s].blobId) == Some(st.sessions[s].handler)
  }

  lemma HandlersOnlyGrow(w: World, st: State, op: Op)
    ensures var grown := if op.Register? && op.handler.Some? then [op.handler.value] else [];
            Step(w, st, op).state.handlers == st.handlers + grown
  {
    if op.Open? {
      OpenFrame(w, st, op);
    }
  }

  lemma OpenGoesToOwner(w: World, owns: Owns, st: State, op: Op)
    requires FixedOwners(w, owns) && op.Open? && WithOwner(owns, st)
    ensures WithOwner(owns, Step(w, st, op).state)
  {
    var after := Step(w, st, op).state;
    OpenFrame(w, st, op);
    OpenChangesOneEntry(w, st, op);
    FindIsOwner(w, owns, st.log, st.handlers, op.path);
    forall s | s in after.sessions
      ensures Owner(owns, st.handlers, after.sessions[s].blobId) == Some(after.sessions[s].handler)
    {
      var r := Step(w, st, op).result;
      if r.Opened? && r.session.Some? && r.session.value != s {
        assert s in after.sessions - {r.session.value};
      }
    }
  }

  lemma StepKeepsOwner(w: World, owns: Owns, st: State, op: Op)
    requires FixedOwners(w, owns) && WithOwner(owns, st)
    ensures WithOwner(owns, Step(w, st, op).state)
  {
    var after := Step(w, st, op).state;
    if op.Open? {
      OpenGoesToOwner(w, owns, st, op);
    } else {
      HandlersOnlyGrow(w, st, op);
      forall s | s in after.sessions
        ensures Owner(owns, after.handlers, after.sessions[s].blobId) == Some(after.sessions[s].handler)
      {
        StepKeepsHolder(w, st, op, s);
        assert Holders(after.sessions)[s] == Holders(st.sessions)[s];
        OwnerIsStable(owns, st.handlers, after.handlers[|st.handlers|..], st.sessions[s].blobId);
      }
    }
  }

  /** In every reachable state, looking up a live session's path finds that session's handler. */
  lemma {:induction false} LookupFindsTheHolder(w: World, owns: Owns, st: State, ops: seq<Op>)
    requires FixedOwners(w, owns) && WithOwner(owns, st)
    ensures var after := Run(w, st, ops);
            && WithOwner(owns, after)
            && forall s, log: Log :: s in after.sessions ==>
                 Find(w, log, after.handlers, after.sessions[s].blobId).handler == Some(after.sessions[s].handler)
    decreases |ops|
  {
    if ops == [] {
      forall s, log: Log | s in st.sessions
        ensures Find(w, log, st.handlers, st.sessions[s].blobId).handler == Some(st.sessions[s].handler)
      {
        FindIsOwner(w, owns, log, st.handlers, st.sessions[s].blobId);
      }
    } else {
      StepKeepsOwner(w, owns, st, ops[0]);
      LookupFindsTheHolder(w, owns, Step(w, st, ops[0]).state, ops[1..]);
    }
  }
}
