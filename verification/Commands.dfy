/** The eleven command functions of ipmi.cpp and the request path of process.cpp, calling a BlobManager. */
module Commands {
  import opened BlobTypes
  import opened Reference
  import opened Manager
  import opened Wire

  method GetBlobCount(mgr: BlobManager, data: seq<byte>, now: Time, later: Time) returns (resp: Resp)
    requires mgr.Valid()
    modifies mgr, mgr.bus
    ensures mgr.Valid()
    ensures Served(mgr.Abs(), resp) == Execute(mgr.bus.w, old(mgr.Abs()), BlobGetCount, data, now, later)
  {
    var blobCount := mgr.BuildBlobList();
    var output := [0, 0];
    output := output + LE32(blobCount);
    return Success(output);
  }

  method EnumerateBlob(mgr: BlobManager, data: seq<byte>, now: Time, later: Time) returns (resp: Resp)
    requires mgr.Valid() && |data| >= 6
    modifies mgr, mgr.bus
    ensures mgr.Valid()
    ensures Served(mgr.Abs(), resp) == Execute(mgr.bus.w, old(mgr.Abs()), BlobEnumerate, data, now, later)
  {
    var blobIdx := Get32(data, 2);
    var blobId := mgr.GetBlobId(blobIdx);
    if blobId == [] {
      return Failure(InvalidFieldRequest);
    }
    var output := [0, 0];
    output := output + blobId + [0];
    return Success(output);
  }

  method OpenBlob(mgr: BlobManager, data: seq<byte>, now: Time, later: Time) returns (resp: Resp)
    requires mgr.Valid() && |data| >= 4
    modifies mgr, mgr.bus
    ensures mgr.Valid()
    ensures Served(mgr.Abs(), resp) == Execute(mgr.bus.w, old(mgr.Abs()), BlobOpen, data, now, later)
  {
    var path := StringFromBuffer(data[4..]);
    if path == [] {
      return Failure(ReqDataLenInvalid);
    }
    var flags := Get16(data, 2);
    var session := mgr.Open(flags, path, now, later);
    if session.None? {
      return Failure(UnspecifiedError);
    }
    var output := [0, 0];
    output := output + LE16(session.value);
    return Success(output);
  }

  method CloseBlob(mgr: BlobManager, data: seq<byte>, now: Time, later: Time) returns (resp: Resp)
    requires mgr.Valid()
    modifies mgr, mgr.bus
    ensures mgr.Valid()
    ensures Served(mgr.Abs(), resp) == Execute(mgr.bus.w, old(mgr.Abs()), BlobClose, data, now, later)
  {
    if |data| < 4 {
      return Failure(ReqDataLenInvalid);
    }
    var ok := mgr.Close(Get16(data, 2), now);
    if !ok {
      return Failure(UnspecifiedError);
    }
    return Success([]);
  }

  method DeleteBlob(mgr: BlobManager, data: seq<byte>, now: Time, later: Time) returns (resp: Resp)
    requires mgr.Valid() && |data| >= 2
    modifies mgr, mgr.bus
    ensures mgr.Valid()
    ensures Served(mgr.Abs(), resp) == Execute(mgr.bus.w, old(mgr.Abs()), BlobDelete, data, now, later)
  {
    var path := StringFromBuffer(data[2..]);
    if path == [] {
      return Failure(ReqDataLenInvalid);
    }
    var ok := mgr.DeleteBlob(path);
    if !ok {
      return Failure(UnspecifiedError);
    }
    return Success([]);
  }

  method ReturnStatBlob(meta: BlobMeta) returns (resp: Resp)
    ensures resp == Answered(Meta(Some(meta)))
  {
    var metadataLen: byte := |meta.metadata| % 0x100;
    var output := [0, 0];
    output := output + LE16(meta.blobState) + LE32(meta.size) + [metadataLen];
    if meta.metadata != [] {
      output := output + meta.metadata;
    } else {
      assert output + meta.metadata == output;
    }
    return Success(output);
  }

  method StatBlob(mgr: BlobManager, data: seq<byte>, now: Time, later: Time) returns (resp: Resp)
    requires mgr.Valid() && |data| >= 2
    modifies mgr, mgr.bus
    ensures mgr.Valid()
    ensures Served(mgr.Abs(), resp) == Execute(mgr.bus.w, old(mgr.Abs()), BlobStat, data, now, later)
  {
    var path := StringFromBuffer(data[2..]);
    if path == [] {
      return Failure(ReqDataLenInvalid);
    }
    var meta := mgr.StatPath(path);
    if meta.None? {
      return Failure(UnspecifiedError);
    }
    resp := ReturnStatBlob(meta.value);
  }

  method SessionStatBlob(mgr: BlobManager, data: seq<byte>, now: Time, later: Time) returns (resp: Resp)
    requires mgr.Valid()
    modifies mgr, mgr.bus
    ensures mgr.Valid()
    ensures Served(mgr.Abs(), resp) == Execute(mgr.bus.w, old(mgr.Abs()), BlobSessionStat, data, now, later)
  {
    if |data| < 4 {
      return Failure(ReqDataLenInvalid);
    }
    var meta := mgr.Stat(Get16(data, 2), now);
    if meta.None? {
      return Failure(UnspecifiedError);
    }
    resp := ReturnStatBlob(meta.value);
  }

  method CommitBlob(mgr: BlobManager, data: seq<byte>, now: Time, later: Time) returns (resp: Resp)
    requires mgr.Valid() && |data| >= 5
    modifies mgr, mgr.bus
    ensures mgr.Valid()
    ensures Served(mgr.Abs(), resp) == Execute(mgr.bus.w, old(mgr.Abs()), BlobCommit, data, now, later)
  {
    var commitDataLen := data[4];
    // |data| >= 5, so the unsigned subtraction does not wrap.
    if commitDataLen > |data| - 5 {
      return Failure(ReqDataLenInvalid);
    }
    var ok := mgr.Commit(Get16(data, 2), data[5..5 + commitDataLen], now);
    if !ok {
      return Failure(UnspecifiedError);
    }
    return Success([]);
  }

  method ReadBlob(mgr: BlobManager, data: seq<byte>, now: Time, later: Time) returns (resp: Resp)
    requires mgr.Valid()
    modifies mgr, mgr.bus
    ensures mgr.Valid()
    ensures Served(mgr.Abs(), resp) == Execute(mgr.bus.w, old(mgr.Abs()), BlobRead, data, now, later)
  {
    if |data| < 12 {
      return Failure(ReqDataLenInvalid);
    }
    var result := mgr.Read(Get16(data, 2), Get32(data, 4), Get32(data, 8), now);
    var output := [0, 0];
    if result != [] {
      output := output + result;
    } else {
      assert output + result == output;
    }
    return Success(output);
  }

  method WriteBlob(mgr: BlobManager, data: seq<byte>, now: Time, later: Time) returns (resp: Resp)
    requires mgr.Valid() && |data| >= 8
    modifies mgr, mgr.bus
    ensures mgr.Valid()
    ensures Served(mgr.Abs(), resp) == Execute(mgr.bus.w, old(mgr.Abs()), BlobWrite, data, now, later)
  {
    var ok := mgr.Write(Get16(data, 2), Get32(data, 4), data[8..], now);
    if !ok {
      return Failure(UnspecifiedError);
    }
    return Success([]);
  }

  method WriteMeta(mgr: BlobManager, data: seq<byte>, now: Time, later: Time) returns (resp: Resp)
    requires mgr.Valid()
    modifies mgr, mgr.bus
    ensures mgr.Valid()
    ensures Served(mgr.Abs(), resp) == Execute(mgr.bus.w, old(mgr.Abs()), BlobWriteMeta, data, now, later)
  {
    if |data| < 8 {
      return Failure(ReqDataLenInvalid);
    }
    var ok := mgr.WriteMeta(Get16(data, 2), Get32(data, 4), data[8..], now);
    if !ok {
      return Failure(UnspecifiedError);
    }
    return Success([]);
  }

  /** Calls the function the dispatch table holds for `command`. */
  method Dispatch(command: Command, mgr: BlobManager, data: seq<byte>, now: Time, later: Time) returns (resp: Resp)
    requires mgr.Valid() && |data| >= Unchecked(command)
    modifies mgr, mgr.bus
    ensures mgr.Valid()
    ensures Served(mgr.Abs(), resp) == Execute(mgr.bus.w, old(mgr.Abs()), command, data, now, later)
  {
    match command
    case BlobGetCount => resp := GetBlobCount(mgr, data, now, later);
    case BlobEnumerate => resp := EnumerateBlob(mgr, data, now, later);
    case BlobOpen => resp := OpenBlob(mgr, data, now, later);
    case BlobRead => resp := ReadBlob(mgr, data, now, later);
    case BlobWrite => resp := WriteBlob(mgr, data, now, later);
    case BlobCommit => resp := CommitBlob(mgr, data, now, later);
    case BlobClose => resp := CloseBlob(mgr, data, now, later);
    case BlobDelete => resp := DeleteBlob(mgr, data, now, later);
    case BlobStat => resp := StatBlob(mgr, data, now, later);
    case BlobSessionStat => resp := SessionStatBlob(mgr, data, now, later);
    case BlobWriteMeta => resp := WriteMeta(mgr, data, now, later);
  }

  /** Runs the picked handler and stamps the crc over the first two bytes of its reply. */
  method ProcessBlobCommand(cmd: Admission, mgr: BlobManager, rq: Request) returns (resp: Resp)
    requires mgr.Valid() && (cmd.Admit? ==> |rq.data| >= Unchecked(cmd.command))
    modifies mgr, mgr.bus
    ensures mgr.Valid() && Served(mgr.Abs(), resp) == Processed(mgr.bus.w, old(mgr.Abs()), cmd, rq)
  {
    if cmd.Reject? {
      return Failure(cmd.cc);
    }
    resp := Dispatch(cmd.command, mgr, rq.data, rq.now, rq.later);
    if resp.Failure? {
      return;
    }
    var response := resp.body;
    if |response| == 0 {
      return;
    }
    if |response| < 2 {
      return Failure(UnspecifiedError);
    }
    if |response| > rq.maxSize {
      return Failure(ResponseError);
    }
    var crcValue := mgr.bus.w.crc(response[2..]);
    response := response[0 := LE16(crcValue)[0]];
    response := response[1 := LE16(crcValue)[1]];
    assert response == LE16(crcValue) + resp.body[2..];
    return Success(response);
  }

  method HandleBlobCommand(mgr: BlobManager, rq: Request) returns (resp: Resp)
    requires mgr.Valid()
    modifies mgr, mgr.bus
    ensures mgr.Valid() && Served(mgr.Abs(), resp) == Serve(mgr.bus.w, old(mgr.Abs()), rq)
  {
    resp := ProcessBlobCommand(ValidateBlobCommand(mgr.bus.w.crc, rq.cmd, rq.data), mgr, rq);
  }
}
