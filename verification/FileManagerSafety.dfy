/** What every run of the file manager keeps, whatever the server, the user and the socket do. */
module FileManagerSafety {
  import opened Wrappers
  import opened FileManagerProtocol

  // ----- The wire as a server reads it -----

  /** The upload that data frames belong to: the one started last. */
  function LastStart(wire: seq<Frame>): Option<RequestId> {
    if wire == [] then None
    else if wire[|wire| - 1].UploadStart? then Some(wire[|wire| - 1].id)
    else LastStart(wire[..|wire| - 1])
  }

  /** The bytes a server has received for an upload. */
  function Payload(wire: seq<Frame>, id: RequestId): seq<Byte> {
    if wire == [] then []
    else
      var before, f := wire[..|wire| - 1], wire[|wire| - 1];
      Payload(before, id) + (if f.Data? && LastStart(before) == Some(id) then f.bytes else [])
  }

  /** The number of data frames a server has received for an upload. */
  function DataFrames(wire: seq<Frame>, id: RequestId): nat {
    if wire == [] then 0
    else
      var before, f := wire[..|wire| - 1], wire[|wire| - 1];
      DataFrames(before, id) + (if f.Data? && LastStart(before) == Some(id) then 1 else 0)
  }

  lemma OneMoreFrame(wire: seq<Frame>, f: Frame)
    ensures LastStart(wire + [f]) == if f.UploadStart? then Some(f.id) else LastStart(wire)
    ensures forall id :: Payload(wire + [f], id) ==
              Payload(wire, id) + (if f.Data? && LastStart(wire) == Some(id) then f.bytes else [])
    ensures forall id :: DataFrames(wire + [f], id) ==
              DataFrames(wire, id) + (if f.Data? && LastStart(wire) == Some(id) then 1 else 0)
  {
    assert (wire + [f])[..|wire|] == wire;
  }

  lemma {:induction false} NothingBeforeStart(wire: seq<Frame>, id: RequestId)
    requires forall file :: UploadStart(id, file) !in wire
    ensures LastStart(wire) != Some(id) && Payload(wire, id) == [] && DataFrames(wire, id) == 0
  {
    if wire != [] {
      var f := wire[|wire| - 1];
      assert f in wire;
      assert f.UploadStart? ==> f == UploadStart(f.id, f.file);
      NothingBeforeStart(wire[..|wire| - 1], id);
    }
  }

  /** A frame that belongs to no upload. */
  predicate Quiet(f: Frame) {
    !f.UploadStart? && !f.Data? && !f.UploadEnd? && !f.UploadCancel?
  }

  /** Two wires that tell the same about every upload. */
  ghost predicate SameUploads(w: seq<Frame>, v: seq<Frame>) {
    && LastStart(w) == LastStart(v)
    && (forall id :: Payload(w, id) == Payload(v, id) && DataFrames(w, id) == DataFrames(v, id))
    && (forall f :: !Quiet(f) ==> (f in w <==> f in v))
  }

  lemma QuietFrame(wire: seq<Frame>, f: Frame)
    requires Quiet(f)
    ensures SameUploads(wire, wire + [f])
  {
    OneMoreFrame(wire, f);
  }

  // ----- Transfers -----

  type Counts = map<RequestId, nat>

  /** An upload as seen on the wire: a prefix of its file, ended only when whole, never ended and cancelled. */
  ghost predicate UploadIsSound(wire: seq<Frame>, acks: Counts, id: RequestId, file: seq<Byte>) {
    && Payload(wire, id) <= file
    && (UploadEnd(id) in wire ==> Payload(wire, id) == file)
    && !(UploadEnd(id) in wire && UploadCancel(id) in wire)
    && DataFrames(wire, id) <= CountOf(acks, id) + 1
  }

  ghost predicate AllUploadsSound(wire: seq<Frame>, acks: Counts) {
    forall id, file :: UploadStart(id, file) in wire ==> UploadIsSound(wire, acks, id, file)
  }

  /** The wire agrees with what the client remembers of the upload in progress. */
  ghost predicate Agrees(wire: seq<Frame>, acks: Counts, u: Upload) {
    && LastStart(wire) == Some(u.id)
    && (forall file :: UploadStart(u.id, file) in wire ==> file == u.file)
    && u.sent <= |u.file| && Payload(wire, u.id) == u.file[..u.sent]
    && (UploadEnd(u.id) in wire ==> u.endSent) && (u.endSent ==> u.sent == |u.file| && !u.cancelling)
    && (UploadCancel(u.id) in wire ==> u.cancelling)
    && DataFrames(wire, u.id) <= CountOf(acks, u.id) + (if u.awaitingAck then 1 else 0)
  }

  /** A slice being read is the next one of the upload it was read for. */
  predicate SliceFits(waiting: Waiting, u: Upload) {
    waiting.ReadingSlice? && waiting.upload == u.id ==>
      && u.sent < waiting.end <= |u.file| && waiting.slice == u.file[u.sent..waiting.end]
      && !u.awaitingAck && !u.endSent
  }

  /** Ids on the wire were all drawn from the sequence. */
  ghost predicate IdsDrawn(wire: seq<Frame>, waiting: Waiting, sequence: nat) {
    && (forall id, file :: UploadStart(id, file) in wire ==> id.sequence <= sequence)
    && (forall id :: UploadEnd(id) in wire || UploadCancel(id) in wire ==> id.sequence <= sequence)
    && (waiting.ReadingSlice? ==> waiting.upload.sequence <= sequence)
  }

  /** A download holds what arrived, and at most 64 MiB of it; so does every saved file. */
  ghost predicate DownloadsBounded(download: Option<Download>, saved: seq<seq<Byte>>) {
    && (download.Some? ==>
          download.value.received == |Flatten(download.value.chunks)| && download.value.received <= MAX_FILE_SIZE)
    && (forall i :: 0 <= i < |saved| ==> |saved[i]| <= MAX_FILE_SIZE)
  }

  ghost predicate UploadsSafe(s: State) {
    && AllUploadsSound(s.wire, s.acks) && IdsDrawn(s.wire, s.waiting, s.sequence)
    && (s.upload.Some? ==>
          && Agrees(s.wire, s.acks, s.upload.value) && SliceFits(s.waiting, s.upload.value)
          && s.upload.value.id.sequence <= s.sequence)
  }

  ghost predicate TransfersSafe(s: State) {
    && !(s.upload.Some? && s.download.Some?)
    && UploadsSafe(s) && DownloadsBounded(s.download, s.saved)
  }

  /** A step that keeps or drops the upload. */
  ghost predicate KeepsUploads(s: State, t: State) {
    && t.acks == s.acks && s.sequence <= t.sequence
    && (t.waiting == s.waiting || !t.waiting.ReadingSlice?)
    && (t.upload == s.upload || t.upload == None)
  }

  /** A step that sends at most one frame, which belongs to no upload. */
  ghost predicate SendsQuietly(before: seq<Frame>, after: seq<Frame>) {
    after == before || (|after| == |before| + 1 && after[..|before|] == before && Quiet(after[|before|]))
  }

  lemma SendIsQuiet(s: State, f: Frame)
    requires Quiet(f)
    ensures SendsQuietly(s.wire, Send(s, f).wire) && Send(s, f).(wire := s.wire) == s
  {
  }

  lemma QuietStep(s: State, t: State)
    requires UploadsSafe(s) && KeepsUploads(s, t) && SendsQuietly(s.wire, t.wire)
    ensures UploadsSafe(t)
  {
    hide LastStart, Payload, DataFrames;
    if t.wire != s.wire {
      QuietFrame(s.wire, t.wire[|s.wire|]);
      assert t.wire == s.wire + [t.wire[|s.wire|]];
      assert AllUploadsSound(t.wire, t.acks) by {
        forall id, file | UploadStart(id, file) in t.wire ensures UploadIsSound(t.wire, t.acks, id, file) {
          assert UploadStart(id, file) in s.wire;
          assert UploadIsSound(s.wire, s.acks, id, file);
        }
      }
    }
  }

  // ----- What each upload frame does to the wire -----

  lemma StartFrame(wire: seq<Frame>, acks: Counts, waiting: Waiting, sequence: nat, u: Upload)
    requires AllUploadsSound(wire, acks) && IdsDrawn(wire, waiting, sequence)
    requires u == Upload(u.id, u.file, 0, 0, false, false, false, false, false) && u.id.sequence == sequence + 1
    ensures AllUploadsSound(wire + [UploadStart(u.id, u.file)], acks)
    ensures IdsDrawn(wire + [UploadStart(u.id, u.file)], waiting, sequence + 1)
    ensures Agrees(wire + [UploadStart(u.id, u.file)], acks, u) && SliceFits(waiting, u)
  {
    hide LastStart, Payload, DataFrames;
    var f := UploadStart(u.id, u.file);
    NothingBeforeStart(wire, u.id);
    OneMoreFrame(wire, f);
    forall id, file | UploadStart(id, file) in wire + [f] ensures UploadIsSound(wire + [f], acks, id, file) {
      assert UploadStart(id, file) in wire ==> UploadIsSound(wire, acks, id, file);
    }
  }

  lemma DataFrame(wire: seq<Frame>, acks: Counts, u: Upload, end: nat)
    requires AllUploadsSound(wire, acks) && Agrees(wire, acks, u) && u.sent < end <= |u.file|
    requires !u.awaitingAck && !u.endSent && !u.cancelling
    ensures AllUploadsSound(wire + [Data(u.file[u.sent..end])], acks)
    ensures Agrees(wire + [Data(u.file[u.sent..end])], acks, u.(sent := end, awaitingAck := true))
  {
    hide LastStart, Payload, DataFrames;
    var f := Data(u.file[u.sent..end]);
    OneMoreFrame(wire, f);
    assert u.file[..u.sent] + u.file[u.sent..end] == u.file[..end];
    forall id, file | UploadStart(id, file) in wire + [f] ensures UploadIsSound(wire + [f], acks, id, file) {
      assert UploadStart(id, file) in wire;
      assert UploadIsSound(wire, acks, id, file);
    }
  }

  lemma EndFrame(wire: seq<Frame>, acks: Counts, u: Upload)
    requires AllUploadsSound(wire, acks) && Agrees(wire, acks, u) && u.sent == |u.file| && !u.cancelling
    ensures AllUploadsSound(wire + [UploadEnd(u.id)], acks)
    ensures Agrees(wire + [UploadEnd(u.id)], acks, u.(endSent := true))
  {
    hide LastStart, Payload, DataFrames;
    OneMoreFrame(wire, UploadEnd(u.id));
    forall id, file | UploadStart(id, file) in wire + [UploadEnd(u.id)]
      ensures UploadIsSound(wire + [UploadEnd(u.id)], acks, id, file)
    {
      assert UploadStart(id, file) in wire;
      assert UploadIsSound(wire, acks, id, file);
    }
  }

  lemma CancelFrame(wire: seq<Frame>, acks: Counts, u: Upload)
    requires AllUploadsSound(wire, acks) && Agrees(wire, acks, u) && u.cancelling
    ensures AllUploadsSound(wire + [UploadCancel(u.id)], acks)
    ensures Agrees(wire + [UploadCancel(u.id)], acks, u.(cancelSent := true))
  {
    hide LastStart, Payload, DataFrames;
    OneMoreFrame(wire, UploadCancel(u.id));
    forall id, file | UploadStart(id, file) in wire + [UploadCancel(u.id)]
      ensures UploadIsSound(wire + [UploadCancel(u.id)], acks, id, file)
    {
      assert UploadStart(id, file) in wire;
      assert UploadIsSound(wire, acks, id, file);
    }
  }

  lemma AckArrives(wire: seq<Frame>, acks: Counts, u: Upload)
    requires AllUploadsSound(wire, acks) && Agrees(wire, acks, u)
    ensures var more := acks[u.id := CountOf(acks, u.id) + 1];
            AllUploadsSound(wire, more) && Agrees(wire, more, u.(awaitingAck := false))
  {
    hide LastStart, Payload, DataFrames;
    var more := acks[u.id := CountOf(acks, u.id) + 1];
    forall id, file | UploadStart(id, file) in wire ensures UploadIsSound(wire, more, id, file) {
      assert UploadIsSound(wire, acks, id, file);
    }
  }

  // ----- Each step of the machine -----

  lemma BeginUploadSafe(s: State, generation: nat, file: seq<Byte>)
    requires TransfersSafe(s)
    ensures TransfersSafe(BeginUpload(s, generation, file))
  {
    hide AllUploadsSound, IdsDrawn, Agrees, SliceFits, DownloadsBounded;
    StartFrame(s.wire, s.acks, s.waiting, s.sequence, Upload(NextId(s), file, 0, 0, false, false, false, false, false));
  }

  lemma SendNextChunkSafe(s: State, u: Upload)
    requires TransfersSafe(s.(upload := Some(u))) && s.waiting.NotWaiting?
    ensures TransfersSafe(SendNextChunk(s, u))
  {
    hide AllUploadsSound, DownloadsBounded;
    if u.sent >= |u.file| && !u.cancelling {
      EndFrame(s.wire, s.acks, u);
    }
  }

  lemma SliceReadSafe(s: State)
    requires TransfersSafe(s) && s.waiting.ReadingSlice?
    ensures TransfersSafe(DoReadFinished(s))
  {
    hide AllUploadsSound, DownloadsBounded, Agrees;
    if UploadMatches(s, s.waiting.upload) && !s.upload.value.cancelling {
      DataFrame(s.wire, s.acks, s.upload.value, s.waiting.end);
    }
  }

  lemma SendUploadCancelSafe(s: State, u: Upload)
    requires TransfersSafe(s.(upload := Some(u))) && u.cancelling
    ensures TransfersSafe(SendUploadCancel(s, u))
  {
    hide AllUploadsSound, DownloadsBounded, Agrees;
    CancelFrame(s.wire, s.acks, u);
  }

  lemma UploadReadySafe(s: State, id: RequestId)
    requires TransfersSafe(s) && s.waiting.NotWaiting?
    ensures TransfersSafe(DoUploadReady(s, id))
  {
    hide AllUploadsSound, DownloadsBounded, IdsDrawn, SendUploadCancel, SendNextChunk;
    if UploadMatches(s, id) && s.upload.value.sent == 0 {
      var u := s.upload.value.(readyForData := true);
      if u.cancelling { SendUploadCancelSafe(s, u); } else { SendNextChunkSafe(s, u); }
    }
  }

  lemma UploadProgressSafe(s: State, id: RequestId, loaded: Option<nat>)
    requires TransfersSafe(s) && s.waiting.NotWaiting?
    ensures TransfersSafe(DoUploadProgress(s, id, loaded))
  {
    hide AllUploadsSound, DownloadsBounded, IdsDrawn, SendUploadCancel, SendNextChunk;
    if UploadMatches(s, id) {
      var u0 := s.upload.value;
      var loadedNow := if loaded.Some? then loaded.value else u0.sent;
      var u := u0.(acknowledged := Min(|u0.file|, Max(u0.acknowledged, loadedNow)), awaitingAck := false);
      var s1 := s.(acks := s.acks[id := Acks(s, id) + 1]);
      AckArrives(s.wire, s.acks, u0);
      assert Agrees(s1.wire, s1.acks, u);
      if u.cancelling { SendUploadCancelSafe(s1, u); } else { SendNextChunkSafe(s1, u); }
    }
  }

  lemma CancelUploadSafe(s: State)
    requires TransfersSafe(s) && s.upload.Some?
    ensures TransfersSafe(DoCancel(s))
  {
    hide AllUploadsSound, DownloadsBounded, IdsDrawn, SendUploadCancel;
    var u := s.upload.value;
    if !u.cancelling && !u.endSent {
      SendUploadCancelSafe(s, u.(cancelling := true));
    }
  }

  /** A step that touches no transfer, or drops them. */
  ghost predicate Idle(s: State, t: State) {
    KeepsUploads(s, t) && (t.download == s.download || t.download == None) && t.saved == s.saved
  }

  lemma IdleStep(s: State, t: State)
    requires TransfersSafe(s) && Idle(s, t) && SendsQuietly(s.wire, t.wire)
    ensures TransfersSafe(t)
  {
    QuietStep(s, t);
  }

  lemma RequestListSafe(s: State, path: Path, mode: HistoryMode)
    requires TransfersSafe(s)
    ensures TransfersSafe(RequestList(s, path, mode))
  {
    hide TransfersSafe, SendsQuietly, Send, ValidPath;
    if s.ready && s.socket.Open? && ValidPath(path) {
      var s1 := if s.activeList.Some? then s.(pending := s.pending - {s.activeList.value}) else s;
      var s2 := CreateRequest(s1, Listing(path, mode)).(activeList := Some(NextId(s)));
      SendIsQuiet(s2, ListDir(NextId(s), path));
      IdleStep(s, RequestList(s, path, mode));
    }
  }

  lemma ResetSafe(s: State)
    requires TransfersSafe(s)
    ensures TransfersSafe(DoReset(s)) && TransfersSafe(DoAttach(s))
  {
    hide TransfersSafe, SendsQuietly, Send;
    SendIsQuiet(s, Bye);
    IdleStep(s, DoReset(s));
    IdleStep(DoReset(s), DoAttach(s));
  }

  lemma SocketStepSafe(s: State, shown: bool)
    requires TransfersSafe(s)
    ensures TransfersSafe(DoOpened(s)) && TransfersSafe(DoClosed(s, shown)) && TransfersSafe(s.(socket := Closing))
  {
    hide TransfersSafe, SendsQuietly, Send;
    SendIsQuiet(s.(socket := Open), Init);
    IdleStep(s, DoClosed(s, shown));
    IdleStep(s, s.(socket := Closing));
    if s.socket.Connecting? { IdleStep(s, DoOpened(s)); }
  }

  lemma MutationSafe(s: State)
    requires TransfersSafe(s)
    ensures TransfersSafe(Next(s, AskMutation))
  {
    hide TransfersSafe, SendsQuietly, Send;
    SendIsQuiet(CreateRequest(s, Mutation), Mutate(NextId(s)));
    IdleStep(s, Next(s, AskMutation));
  }

  lemma BrowseStepSafe(s: State, e: Event)
    requires TransfersSafe(s) && (e.Navigate? || e.Back? || e.Refresh?)
    ensures TransfersSafe(Next(s, e))
  {
    hide TransfersSafe, RequestList;
    match e
    case Navigate(path) => RequestListSafe(s, path, Push);
    case Back =>
      if s.ready && 0 < s.historyIndex <= |s.history| {
        RequestListSafe(s, s.history[s.historyIndex - 1], Index(s.historyIndex - 1));
      }
    case Refresh => RequestListSafe(s, s.cwd, Keep);
  }

  lemma ReadyMessageSafe(s: State, cwd: Option<Path>)
    requires TransfersSafe(s)
    ensures TransfersSafe(DoReady(s, cwd))
  {
    hide RequestList, TransfersSafe;
    var path := if cwd.Some? && ValidPath(cwd.value) then cwd.value else "/";
    var t := s.(ready := true, cwd := path, home := path, history := [path], historyIndex := 0);
    IdleStep(s, t);
    RequestListSafe(t, path, Keep);
  }

  lemma ShowListingSafe(s: State, path: Path, mode: HistoryMode, entries: seq<string>)
    requires TransfersSafe(s)
    ensures TransfersSafe(ShowListing(s, path, mode, entries))
  {
    hide *;
    ShowListingIsSilent(s, path, mode, entries);
    IdleStep(s, ShowListing(s, path, mode, entries));
  }

  lemma ShowListingIsSilent(s: State, path: Path, mode: HistoryMode, entries: seq<string>)
    ensures var t := ShowListing(s, path, mode, entries); Idle(s, t) && t.wire == s.wire
  {
  }

  lemma ListResultSafe(s: State, id: RequestId, path: Option<Path>, entries: Option<seq<string>>)
    requires TransfersSafe(s)
    ensures TransfersSafe(DoListResult(s, id, path, entries))
  {
    hide TransfersSafe, ValidPath, ShowListing;
    if id in s.pending && s.pending[id].Listing? {
      var s1 := s.(pending := s.pending - {id});
      var s2 := s1.(activeList := None);
      IdleStep(s, s1);
      IdleStep(s, s2);
      if entries.Some? {
        ShowListingSafe(s2, if path.Some? then path.value else s.pending[id].path, s.pending[id].mode, entries.value);
      }
    }
  }

  lemma CancelledSafe(s: State, id: RequestId, upload: bool)
    requires TransfersSafe(s)
    ensures TransfersSafe(DoCancelled(s, id, upload))
  {
    hide TransfersSafe;
    IdleStep(s, AbortTransfers(s.(pending := s.pending - {id})));
  }

  lemma ErrorSafe(s: State, of: Option<RequestId>)
    requires TransfersSafe(s)
    ensures TransfersSafe(DoError(s, of))
  {
    hide TransfersSafe, AbortTransfers;
    if of.Some? && of.value in s.pending {
      var s1 := s.(pending := s.pending - {of.value});
      IdleStep(s, s1);
      IdleStep(s, s1.(activeList := None));
      AbortSafe(s1);
      AbortSafe(s1.(activeList := None));
    }
  }

  lemma AbortSafe(s: State)
    requires TransfersSafe(s)
    ensures TransfersSafe(AbortTransfers(s))
  {
    hide TransfersSafe;
    IdleStep(s, AbortTransfers(s));
  }

  lemma RefreshMessageSafe(s: State, id: RequestId)
    requires TransfersSafe(s)
    ensures TransfersSafe(DoUploadComplete(s, id)) && TransfersSafe(DoMutationResult(s, id))
  {
    hide TransfersSafe, RequestList;
    var t, u := s.(pending := s.pending - {id}, upload := None), s.(pending := s.pending - {id});
    IdleStep(s, t);
    IdleStep(s, u);
    RequestListSafe(t, t.cwd, Keep);
    RequestListSafe(u, u.cwd, Keep);
  }

  // ----- Downloads -----

  lemma OneMoreChunk(chunks: seq<seq<Byte>>, data: seq<Byte>)
    ensures Flatten(chunks + [data]) == Flatten(chunks) + data
  {
    assert (chunks + [data])[..|chunks|] == chunks;
  }

  /** Replacing the download record, within bounds. */
  lemma DownloadStep(s: State, d: Option<Download>, sends: seq<Frame>)
    requires TransfersSafe(s) && s.upload == None && DownloadsBounded(d, s.saved) && SendsQuietly(s.wire, sends)
    ensures TransfersSafe(s.(download := d, wire := sends))
  {
    hide SendsQuietly, DownloadsBounded;
    QuietStep(s, s.(download := d, wire := sends));
  }

  lemma SendDownloadCancelSafe(s: State, d: Download)
    requires TransfersSafe(s) && s.upload == None && DownloadsBounded(Some(d), s.saved)
    ensures TransfersSafe(SendDownloadCancel(s, d))
  {
    hide UploadsSafe, SendsQuietly, TransfersSafe, Send;
    var d1 := d.(cancelSent := true);
    DownloadStep(s, Some(d), s.wire) by { SendIsQuietNever(s.wire); }
    SendIsQuiet(s.(download := Some(d1)), DownloadCancel(d.id));
    DownloadStep(s, Some(d1), Send(s.(download := Some(d1)), DownloadCancel(d.id)).wire);
  }

  lemma SendIsQuietNever(wire: seq<Frame>)
    ensures SendsQuietly(wire, wire)
  {
  }

  lemma AskDownloadSafe(s: State, expected: Option<nat>)
    requires TransfersSafe(s)
    ensures TransfersSafe(DoAskDownload(s, expected))
  {
    hide SendsQuietly, Send, TransfersSafe;
    var d := Download(NextId(s), expected, [], 0, false, false, false);
    if !HasTransfer(s) {
      var s1 := CreateRequest(s, Transfer);
      IdleStep(s, s1);
      SavedBounded(s);
      SendIsQuiet(s1.(download := Some(d)), DownloadStart(NextId(s)));
      DownloadStep(s1, Some(d), Send(s1.(download := Some(d)), DownloadStart(NextId(s))).wire);
    }
  }

  lemma SavedBounded(s: State)
    requires TransfersSafe(s)
    ensures DownloadsBounded(s.download, s.saved) && !(s.upload.Some? && s.download.Some?)
  {
  }

  lemma CancelDownloadSafe(s: State)
    requires TransfersSafe(s) && s.upload.None?
    ensures TransfersSafe(DoCancel(s))
  {
    hide TransfersSafe, SendDownloadCancel;
    SavedBounded(s);
    if s.download.Some? {
      SendDownloadCancelSafe(s, s.download.value.(cancelling := true));
    }
  }

  lemma AcceptBinarySafe(s: State, id: RequestId, data: seq<Byte>)
    requires TransfersSafe(s)
    ensures TransfersSafe(AcceptBinary(s, id, data))
  {
    hide TransfersSafe, SendDownloadCancel;
    SavedBounded(s);
    if DownloadMatches(s, id) {
      var d := s.download.value;
      OneMoreChunk(d.chunks, data);
      SendDownloadCancelSafe(s, d.(cancelling := true));
      if d.received + |data| <= MAX_FILE_SIZE {
        DownloadStep(s, Some(d.(chunks := d.chunks + [data], received := d.received + |data|)), s.wire);
      }
    }
  }

  lemma BinarySafe(s: State, data: seq<Byte>, blob: bool)
    requires TransfersSafe(s)
    ensures TransfersSafe(DoBinary(s, data, blob))
  {
    hide TransfersSafe, AcceptBinary;
    if s.download.Some? {
      IdleStep(s, s.(waiting := ReadingBlob(s.download.value.id, data)));
      AcceptBinarySafe(s, s.download.value.id, data);
    }
  }

  lemma BlobReadSafe(s: State)
    requires TransfersSafe(s) && s.waiting.ReadingBlob?
    ensures TransfersSafe(DoReadFinished(s))
  {
    hide TransfersSafe, AcceptBinary;
    IdleStep(s, s.(waiting := NotWaiting));
    AcceptBinarySafe(s.(waiting := NotWaiting), s.waiting.download, s.waiting.data);
  }

  lemma DownloadStartedSafe(s: State, id: RequestId, size: Option<nat>)
    requires TransfersSafe(s)
    ensures TransfersSafe(DoDownloadStarted(s, id, size))
  {
    hide TransfersSafe, SendDownloadCancel;
    SavedBounded(s);
    if DownloadMatches(s, id) {
      var d := s.download.value.(started := true, expected := size);
      SendDownloadCancelSafe(s, d);
      SendDownloadCancelSafe(s, d.(cancelling := true));
      DownloadStep(s, Some(d), s.wire);
    }
  }

  lemma DownloadDoneSafe(s: State, id: RequestId, size: Option<nat>)
    requires TransfersSafe(s)
    ensures TransfersSafe(DoDownloadDone(s, id, size))
  {
    hide UploadsSafe;
    if DownloadMatches(s, id) {
      QuietStep(s, DoDownloadDone(s, id, size));
    }
  }

  // ----- All steps -----

  lemma MessageSafe(s: State, m: Message)
    requires TransfersSafe(s) && s.waiting.NotWaiting?
    ensures TransfersSafe(HandleMessage(s, m))
  {
    hide TransfersSafe, DoReady, DoListResult, DoUploadReady, DoUploadProgress, DoBinary, DoDownloadStarted,
         DoDownloadDone, DoUploadComplete, DoMutationResult, DoCancelled, DoError;
    match m
    case Ready(cwd) => ReadyMessageSafe(s, cwd);
    case ListResult(id, path, entries) => ListResultSafe(s, id, path, entries);
    case UploadReady(id) => UploadReadySafe(s, id);
    case UploadProgress(id, loaded) => UploadProgressSafe(s, id, loaded);
    case Binary(data, blob) => BinarySafe(s, data, blob);
    case DownloadStarted(id, size) => DownloadStartedSafe(s, id, size);
    case DownloadDone(id, size) => DownloadDoneSafe(s, id, size);
    case UploadComplete(id) => RefreshMessageSafe(s, id);
    case MutationResult(id) => RefreshMessageSafe(s, id);
    case UploadCancelled(id) => CancelledSafe(s, id, true);
    case DownloadCancelled(id) => CancelledSafe(s, id, false);
    case Error(of) => ErrorSafe(s, of);
    case ClosedByServer => SocketStepSafe(s, false);
    case Other =>
  }

  lemma AskUploadSafe(s: State, file: seq<Byte>, present: bool)
    requires TransfersSafe(s)
    ensures TransfersSafe(DoAskUpload(s, file, present))
  {
    hide TransfersSafe, BeginUpload;
    BeginUploadSafe(s, s.generation, file);
    IdleStep(s, s.(confirming := true, questions := s.questions + [Question(s.generation, file)]));
  }

  lemma AnswerSafe(s: State, k: nat, overwrite: bool)
    requires TransfersSafe(s)
    ensures TransfersSafe(DoAnswer(s, k, overwrite))
  {
    hide TransfersSafe, BeginUpload;
    if k < |s.questions| {
      var q := s.questions[k];
      var s1 := s.(questions := s.questions[..k] + s.questions[k + 1..]);
      var s2 := if q.generation == s.generation then s1.(confirming := false) else s1;
      IdleStep(s, s2);
      BeginUploadSafe(s2, q.generation, q.file);
    }
  }

  lemma NothingToRead(s: State)
    requires s.waiting.NotWaiting?
    ensures DoReadFinished(s) == s
  {
  }

  /** Every step, in every safe state, keeps every transfer safe. */
  lemma StepSafe(s: State, e: Event)
    requires TransfersSafe(s)
    ensures TransfersSafe(Next(s, e))
  {
    hide TransfersSafe, HandleMessage, DoAskUpload, DoAnswer, DoAskDownload, DoCancel, DoReset, DoAttach, DoOpened,
         DoClosed, DoReadFinished, RequestList, DoBack, DoRefresh, Send;
    match e
    case AskUpload(file, present) => AskUploadSafe(s, file, present);
    case Answer(k, overwrite) => AnswerSafe(s, k, overwrite);
    case AskDownload(expected) => AskDownloadSafe(s, expected);
    case Cancel => if s.upload.Some? { CancelUploadSafe(s); } else { CancelDownloadSafe(s); }
    case Server(_, m) => if s.waiting.NotWaiting? { MessageSafe(s, m); }
    case ReadFinished =>
      if s.waiting.ReadingSlice? { SliceReadSafe(s); } else if s.waiting.ReadingBlob? { BlobReadSafe(s); }
        else { NothingToRead(s); }
    case Navigate(_) => BrowseStepSafe(s, e);
    case Back => BrowseStepSafe(s, e);
    case Refresh => BrowseStepSafe(s, e);
    case Attach => ResetSafe(s);
    case Reset => ResetSafe(s);
    case Opened => SocketStepSafe(s, false);
    case SocketClosing => SocketStepSafe(s, false);
    case Closed(shown) => SocketStepSafe(s, shown);
    case AskMutation => MutationSafe(s);
  }

  /** Over every run: no interleaving of server, user and socket breaks a transfer. */
  lemma {:induction false} EveryRunIsSafe(events: seq<Event>)
    ensures TransfersSafe(Run(events))
  {
    hide Next;
    if events != [] {
      EveryRunIsSafe(events[..|events| - 1]);
      StepSafe(Run(events[..|events| - 1]), events[|events| - 1]);
    }
  }

  /** The same in plain terms, for any upload ever started in any run. */
  lemma UploadGuarantees(events: seq<Event>, id: RequestId, file: seq<Byte>)
    requires UploadStart(id, file) in Run(events).wire
    ensures var s := Run(events);
            && Payload(s.wire, id) <= file
            && (UploadEnd(id) in s.wire ==> Payload(s.wire, id) == file && UploadCancel(id) !in s.wire)
            && DataFrames(s.wire, id) <= Acks(s, id) + 1
            && !(s.upload.Some? && s.download.Some?)
    ensures var s := Run(events);
            s.upload.Some? && s.upload.value.id == id ==>
              s.upload.value.sent <= |file| && Payload(s.wire, id) == file[..s.upload.value.sent]
  {
    hide Run, Payload, DataFrames, LastStart;
    EveryRunIsSafe(events);
    assert UploadIsSound(Run(events).wire, Run(events).acks, id, file);
  }

  // ----- A willing server gets the whole file -----

  function RunFrom(s: State, events: seq<Event>): State
    decreases |events|
  {
    if events == [] then s else RunFrom(Next(s, events[0]), events[1..])
  }

  /** An upload whose next slice is being read, with nobody cancelling. */
  ghost predicate Uploading(s: State) {
    && TransfersSafe(s) && s.socket.Open? && s.upload.Some? && s.waiting.ReadingSlice?
    && var u := s.upload.value;
       && u.id.generation == s.generation && u.readyForData && !u.cancelling && !u.cancelSent
       && s.waiting.upload == u.id && s.waiting.end == Min(|u.file|, u.sent + CHUNK_SIZE)
  }

  /** The slice has been read: it goes out, and the progress it waits for is its end. */
  lemma SliceSent(s: State)
    requires Uploading(s)
    ensures var u := s.upload.value; var t := Next(s, ReadFinished);
            && TransfersSafe(t) && t.socket == s.socket && t.generation == s.generation && t.waiting.NotWaiting?
            && t.upload == Some(u.(sent := s.waiting.end, awaitingAck := true)) && !u.endSent && u.sent < s.waiting.end
  {
    hide TransfersSafe;
    StepSafe(s, ReadFinished);
    SafeSlice(s);
    hide Send;
    SendKeeps(s.(waiting := NotWaiting), Data(s.waiting.slice));
  }

  lemma SendKeeps(s: State, f: Frame)
    ensures Send(s, f) == s.(wire := Send(s, f).wire)
  {
  }

  /** One exchange: the slice goes out, its progress comes back, and the next slice or the end follows. */
  lemma OneExchange(s: State)
    requires Uploading(s)
    ensures var u := s.upload.value;
            var t := Next(Next(s, ReadFinished), Server(s.generation, UploadProgress(u.id, Some(s.waiting.end))));
            && TransfersSafe(t) && t.generation == s.generation && t.upload.Some?
            && t.upload.value.id == u.id && t.upload.value.file == u.file &&
              t.upload.value.sent == s.waiting.end > u.sent
            && (if s.waiting.end == |u.file| then t.upload.value.endSent && UploadEnd(u.id) in t.wire else Uploading(t))
  {
    hide TransfersSafe;
    SliceSent(s);
    var mid, u := Next(s, ReadFinished), s.upload.value;
    hide DoReadFinished;
    StepSafe(mid, Server(s.generation, UploadProgress(u.id, Some(s.waiting.end))));
  }

  lemma SafeSlice(s: State)
    requires TransfersSafe(s) && s.upload.Some? && s.waiting.ReadingSlice? && s.waiting.upload == s.upload.value.id
    ensures !s.upload.value.endSent && s.upload.value.sent < s.waiting.end
  {
  }

  /** Acknowledging every slice brings the whole file across, in |file| / 64 KiB exchanges rounded up. */
  lemma {:induction false} UploadCompletes(s: State) returns (events: seq<Event>)
    requires Uploading(s)
    ensures forall e :: e in events ==>
              e == ReadFinished || (e.Server? && e.message.UploadProgress? && e.message.id == s.upload.value.id)
    ensures var t := RunFrom(s, events);
            UploadEnd(s.upload.value.id) in t.wire && Payload(t.wire, s.upload.value.id) == s.upload.value.file
    ensures |events| == 2 * ((|s.upload.value.file| - s.upload.value.sent + CHUNK_SIZE - 1) / CHUNK_SIZE)
    decreases |s.upload.value.file| - s.upload.value.sent
  {
    hide TransfersSafe, Next, Payload, LastStart;
    var u := s.upload.value;
    var reply := Server(s.generation, UploadProgress(u.id, Some(s.waiting.end)));
    var t := Next(Next(s, ReadFinished), reply);
    OneExchange(s);
    assert RunFrom(s, [ReadFinished, reply]) == t by {
      assert [ReadFinished, reply][1..] == [reply] && [reply][1..] == [];
      assert RunFrom(Next(s, ReadFinished), [reply]) == t;
    }
    if s.waiting.end == |u.file| {
      events := [ReadFinished, reply];
      WholeFile(t);
      SafeSlice(s);
    } else {
      var more := UploadCompletes(t);
      events := [ReadFinished, reply] + more;
      assert events[1..][1..] == more && events[1..][0] == reply;
      assert RunFrom(s, events) == RunFrom(Next(s, ReadFinished), events[1..]) == RunFrom(t, more);
    }
  }

  /** An idle session in which an upload can start. */
  ghost predicate CanUpload(s: State, file: seq<Byte>) {
    && TransfersSafe(s) && s.ready && s.socket.Open? && !HasTransfer(s) && !s.confirming && s.waiting.NotWaiting?
    && |file| <= MAX_FILE_SIZE
  }

  /** The start, and the server's accept. */
  function Accepted(s: State, file: seq<Byte>): State {
    Next(Next(s, AskUpload(file, false)), Server(s.generation, UploadReady(NextId(s))))
  }

  lemma UploadAsked(s: State, file: seq<Byte>)
    requires CanUpload(s, file)
    ensures var t := Next(s, AskUpload(file, false));
      && t.upload == Some(Upload(NextId(s), file, 0, 0, false, false, false, false, false)) && t.socket.Open?
      && t.waiting.NotWaiting? && t.generation == s.generation
  {
    hide TransfersSafe;
  }

  /** After the accept the first slice is being read, or the end of an empty file is out. */
  lemma UploadAccepted(s: State, file: seq<Byte>)
    requires CanUpload(s, file)
    ensures var t := Accepted(s, file);
      && TransfersSafe(t) && t.upload.Some? && t.upload.value.id == NextId(s) && t.upload.value.file == file
      && t.upload.value.sent == 0 && (if file == [] then UploadEnd(NextId(s)) in t.wire else Uploading(t))
  {
    var asked := Next(s, AskUpload(file, false));
    StepSafe(s, AskUpload(file, false));
    StepSafe(asked, Server(s.generation, UploadReady(NextId(s))));
    UploadAsked(s, file);
    hide TransfersSafe, DoAskUpload;
  }

  lemma NothingToExchange(s: State)
    ensures RunFrom(s, []) == s && CHUNK_SIZE == 65536
  {
  }

  /**
   From the start: the server accepts and acknowledges every slice, and gets the whole file in
   ceil(|file| / 64 KiB) exchanges, none for an empty one.
   */
  lemma UploadFromStart(s: State, file: seq<Byte>) returns (events: seq<Event>)
    requires CanUpload(s, file)
    ensures forall e :: e in events ==>
              e == ReadFinished || (e.Server? && e.message.UploadProgress? && e.message.id == NextId(s))
    ensures var t := RunFrom(Accepted(s, file), events);
            UploadEnd(NextId(s)) in t.wire && Payload(t.wire, NextId(s)) == file
    ensures |events| == 2 * ((|file| + 65535) / 65536)
  {
    hide *;
    UploadAccepted(s, file);
    var t := Accepted(s, file);
    NothingToExchange(t);
    if file == [] {
      events := [];
      WholeFile(t);
    } else {
      events := UploadCompletes(t);
    }
  }

  lemma WholeFile(s: State)
    requires TransfersSafe(s) && s.upload.Some? && s.upload.value.sent == |s.upload.value.file|
    ensures Payload(s.wire, s.upload.value.id) == s.upload.value.file
  {
  }

  // ----- What arrives is what is saved -----

  datatype Part = Part(data: seq<Byte>, blob: bool)

  function Datas(parts: seq<Part>): (r: seq<seq<Byte>>)
    ensures |r| == |parts|
  {
    seq(|parts|, i requires 0 <= i < |parts| => parts[i].data)
  }

  /** The parts arrive one after the other; a blob is read before the next one is handled. */
  function Delivered(s: State, parts: seq<Part>): State {
    if parts == [] then s
    else
      var last := parts[|parts| - 1];
      Next(Next(Delivered(s, parts[..|parts| - 1]), Server(s.generation, Binary(last.data, last.blob))), ReadFinished)
  }

  predicate Downloading(s: State) {
    && s.waiting.NotWaiting? && s.download.Some?
    && s.download.value.id.generation == s.generation && !s.download.value.cancelling
  }

  /** The state once `more` has arrived too. */
  function Holding(s: State, more: seq<seq<Byte>>): State
    requires s.download.Some?
  {
    var d := s.download.value;
    s.(download := Some(d.(chunks := d.chunks + more, received := d.received + |Flatten(more)|)))
  }

  predicate Fits(s: State, more: seq<seq<Byte>>) {
    Downloading(s) && s.download.value.received + |Flatten(more)| <= MAX_FILE_SIZE
  }

  /** One part is appended, however it arrives. */
  lemma PartArrives(s: State, more: seq<seq<Byte>>, part: Part)
    requires Fits(s, more + [part.data])
    ensures Fits(s, more)
    ensures Next(Next(Holding(s, more), Server(s.generation, Binary(part.data, part.blob))), ReadFinished)
         == Holding(s, more + [part.data])
  {
    OneMoreChunk(more, part.data);
    hide Flatten;
    assert s.download.value.chunks + (more + [part.data]) == s.download.value.chunks + more + [part.data];
  }

  lemma {:induction false} PartsArrive(s: State, parts: seq<Part>)
    requires Fits(s, Datas(parts))
    ensures Delivered(s, parts) == Holding(s, Datas(parts))
  {
    if parts == [] {
      assert s.download.value.chunks + [] == s.download.value.chunks;
    } else {
      hide Next, Fits, Holding;
      var n := |parts| - 1;
      assert Datas(parts) == Datas(parts[..n]) + [parts[n].data];
      assert s.download.Some? by { DownloadHeld(s, Datas(parts)); }
      PartArrives(s, Datas(parts[..n]), parts[n]);
      PartsArrive(s, parts[..n]);
    }
  }

  lemma DownloadHeld(s: State, more: seq<seq<Byte>>)
    requires Fits(s, more)
    ensures s.download.Some?
  {
  }

  lemma {:induction false} FlattenConcat(a: seq<seq<Byte>>, b: seq<seq<Byte>>)
    ensures Flatten(a + b) == Flatten(a) + Flatten(b)
  {
    if b == [] {
      assert a + b == a;
    } else {
      FlattenConcat(a, b[..|b| - 1]);
      assert (a + b)[..|a + b| - 1] == a + b[..|b| - 1];
    }
  }

  lemma DoneSaves(s: State, size: Option<nat>)
    requires Downloading(s)
    ensures var d := s.download.value; var t := Next(s, Server(s.generation, DownloadDone(d.id, size)));
      var announced := if size.Some? then size else d.expected;
      && t.download.None?
      && t.saved == if announced.None? || announced.value == d.received then s.saved + [Flatten(d.chunks)] else s.saved
  {
    hide Flatten;
  }

  /**
   A download that nobody cancels saves exactly what arrived, part by part and blob or not, if
   that has the size the server announced, and saves nothing otherwise.
   */
  lemma DownloadDelivers(s: State, parts: seq<Part>, size: Option<nat>)
    requires TransfersSafe(s) && Fits(s, Datas(parts))
    ensures var d := s.download.value;
      var t := Next(Delivered(s, parts), Server(s.generation, DownloadDone(d.id, size)));
      var file, announced := Flatten(d.chunks) + Flatten(Datas(parts)), if size.Some? then size else d.expected;
      && t.download.None?
      && t.saved == if announced.None? || announced.value == |file| then s.saved + [file] else s.saved
  {
    assert s.download.value.received == |Flatten(s.download.value.chunks)| by { ReceivedIsHeld(s); }
    hide TransfersSafe, Delivered, Flatten, Datas, Next;
    PartsArrive(s, parts);
    FlattenConcat(s.download.value.chunks, Datas(parts));
    DoneSaves(Holding(s, Datas(parts)), size);
  }

  /** Asked for and started, with a size that the server may announce. */
  function Requested(s: State, expected: Option<nat>, size: Option<nat>): State {
    Next(Next(s, AskDownload(expected)), Server(s.generation, DownloadStarted(NextId(s), size)))
  }

  lemma DownloadBegins(s: State, expected: Option<nat>, size: Option<nat>)
    requires CanUpload(s, []) && (expected.Some? ==> expected.value <= 67108864)
    requires size.Some? ==> size.value <= 67108864
    ensures var t := Requested(s, expected, size);
      && t.download == Some(Download(NextId(s), size, [], 0, true, false, false)) && t.waiting.NotWaiting?
      && t.generation == s.generation && t.saved == s.saved && NextId(s).generation == s.generation
  {
    DownloadAsked(s, expected);
    hide CanUpload, DoAskDownload;
  }

  lemma DownloadAsked(s: State, expected: Option<nat>)
    requires CanUpload(s, []) && (expected.Some? ==> expected.value <= 67108864)
    ensures var d := Download(NextId(s), expected, [], 0, false, false, false);
      Next(s, AskDownload(expected)) == s.(sequence := s.sequence + 1, pending := s.pending[d.id := Transfer],
        download := Some(d), wire := s.wire + [DownloadStart(d.id)])
    ensures s.waiting.NotWaiting?
  {
    hide TransfersSafe;
  }

  /**
   From the start: a download of at most 64 MiB that the server starts and nobody cancels saves exactly
   what arrived, if that has the size announced last, and nothing otherwise.
   */
  lemma DownloadFromStart(s: State, expected: Option<nat>, size: Option<nat>, parts: seq<Part>, end: Option<nat>)
    requires CanUpload(s, []) && (expected.Some? ==> expected.value <= 67108864)
    requires (size.Some? ==> size.value <= 67108864) && |Flatten(Datas(parts))| <= 67108864
    ensures var arrived := Delivered(Requested(s, expected, size), parts);
      var t := Next(arrived, Server(s.generation, DownloadDone(NextId(s), end)));
      var file, announced := Flatten(Datas(parts)), if end.Some? then end else size;
      && t.download.None?
      && t.saved == if announced.None? || announced.value == |file| then s.saved + [file] else s.saved
  {
    hide *;
    var t := Requested(s, expected, size);
    DownloadBegins(s, expected, size);
    BeginsSafely(s, expected, size);
    StartFits(t, Datas(parts));
    DownloadDelivers(t, parts, end);
    NothingHeld();
    assert [] + Flatten(Datas(parts)) == Flatten(Datas(parts));
  }

  lemma BeginsSafely(s: State, expected: Option<nat>, size: Option<nat>)
    requires CanUpload(s, [])
    ensures TransfersSafe(Requested(s, expected, size))
  {
    hide TransfersSafe, Next;
    StepSafe(s, AskDownload(expected));
    StepSafe(Next(s, AskDownload(expected)), Server(s.generation, DownloadStarted(NextId(s), size)));
  }

  lemma StartFits(s: State, more: seq<seq<Byte>>)
    requires s.waiting.NotWaiting? && s.download.Some? && s.download.value.received == 0
    requires s.download.value.id.generation == s.generation && !s.download.value.cancelling
    requires |Flatten(more)| <= 67108864
    ensures Fits(s, more)
  {
    hide Flatten;
  }

  lemma NothingHeld()
    ensures Flatten([]) == []
  {
  }

  lemma ReceivedIsHeld(s: State)
    requires TransfersSafe(s) && s.download.Some?
    ensures s.download.value.received == |Flatten(s.download.value.chunks)|
  {
  }
}
