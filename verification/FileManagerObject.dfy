/**
 The file manager object (webssh/src/file-manager.ts): its fields, and its handlers cut at
 their awaits. Whatever happens to it is one step of the protocol and keeps it valid.
 */
module FileManagerObject {
  import opened Wrappers
  import opened FileManagerProtocol
  import Safety = FileManagerSafety
  import Browsing = FileManagerBrowsing

  class FileManager {
    var socket: Socket
    var generation: nat
    var requestSequence: nat
    var ready: bool
    var cwd: Path
    var homePath: Path
    var history: seq<Path>
    var historyIndex: int
    var entries: seq<string>
    var pending: map<RequestId, Operation>
    var activeListRequest: Option<RequestId>
    var uploadState: Option<Upload>
    var downloadState: Option<Download>
    var uploadConfirmationPending: bool
    /** Calls that wait: for the user's answer, and at the head of the message queue. */
    var questions: seq<Question>
    var waiting: Waiting
    /** What was sent, and the files that were saved. */
    var wire: seq<Frame>
    var saved: seq<seq<Byte>>
    /** Progress messages received, per upload. */
    ghost var acks: map<RequestId, nat>

    ghost function View(): State
      reads this
    {
      State(socket, generation, requestSequence, ready, cwd, homePath, history, historyIndex, entries, pending,
            activeListRequest, uploadState, downloadState, questions, uploadConfirmationPending, waiting, wire, acks,
              saved)
    }

    /** Every transfer is safe, and the history index is inside the history. */
    ghost predicate Valid()
      reads this
    {
      Safety.TransfersSafe(View()) && Browsing.TabInv(Browsing.TabOf(View()))
    }

    constructor ()
      ensures View() == INITIAL && Valid()
    {
      socket, generation, requestSequence, ready, cwd, homePath := NoSocket, 0, 0, false, "/", "/";
      history, historyIndex, entries, pending, activeListRequest := ["/"], 0, [], map[], None;
      uploadState, downloadState, uploadConfirmationPending := None, None, false;
      questions, waiting, wire, saved := [], NotWaiting, [], [];
      acks := map[];
      new;
      assert View() == INITIAL == Run([]);
      Safety.EveryRunIsSafe([]);
      Browsing.HistoryIndexInBounds([]);
    }

    /** Anything that can happen: socket events, user actions, messages, and the ends of awaits. */
    method Step(e: Event)
      requires Valid()
      modifies this
      ensures Valid() && View() == Next(old(View()), e)
    {
      Safety.StepSafe(View(), e);
      Browsing.StepBrowses(View(), e, false);
      assert 0 <= historyIndex < |history|;
      hide Safety.TransfersSafe, Browsing.TabInv, Browsing.TabOf, Next;
      match e
      case Server(current, m) => Receive(current, m);
      case ReadFinished => HandleReadFinished(); NextReadFinished(old(View()));
      case AskUpload(_, _) => TransferStep(e);
      case Answer(_, _) => TransferStep(e);
      case AskDownload(_) => TransferStep(e);
      case Cancel => TransferStep(e);
      case Navigate(_) => BrowseStep(e);
      case Back => BrowseStep(e);
      case Refresh => BrowseStep(e);
      case AskMutation => BrowseStep(e);
      case _ => SocketStep(e);
    }

    method SocketStep(e: Event)
      requires e.Attach? || e.Opened? || e.SocketClosing? || e.Closed? || e.Reset?
      modifies this
      ensures View() == Next(old(View()), e)
    {
      hide DoReset, DoClosed, Send;
      match e
      case Attach => ResetSession(); socket := Connecting;
      case Opened => if socket.Connecting? { socket := Open; SendFrame(Init); }
      case SocketClosing => if !socket.NoSocket? { socket := Closing; }
      case Closed(shown) => OnClose(shown);
      case Reset => ResetSession();
    }

    method BrowseStep(e: Event)
      requires e.Navigate? || e.Back? || e.Refresh? || e.AskMutation?
      requires historyIndex <= |history|
      modifies this
      ensures View() == Next(old(View()), e)
    {
      hide RequestList, DoBack, DoRefresh, Send, CreateRequest;
      match e
      case Navigate(path) => List(path, Push);
      case Back => GoBack();
      case Refresh => RefreshListing();
      case AskMutation => var id := NewRequest(Mutation); SendFrame(Mutate(id));
    }

    method TransferStep(e: Event)
      requires e.AskUpload? || e.Answer? || e.AskDownload? || e.Cancel?
      modifies this
      ensures View() == Next(old(View()), e)
    {
      hide DoAskUpload, DoAnswer, DoAskDownload, DoCancel;
      match e
      case AskUpload(file, present) => UploadFile(file, present);
      case Answer(k, overwrite) => AnswerQuestion(k, overwrite);
      case AskDownload(expected) => DownloadSelected(expected);
      case Cancel => CancelTransfer();
    }

    method Receive(current: nat, m: Message)
      requires 0 <= historyIndex < |history|
      modifies this
      ensures View() == Next(old(View()), Server(current, m))
    {
      hide HandleMessage;
      if waiting.NotWaiting? && current == generation { HandleSocketData(m); }
    }

    // ----- Session -----

    method SendFrame(f: Frame)
      modifies this
      ensures View() == Send(old(View()), f)
    {
      if socket.Open? { wire := wire + [f]; }
    }

    method NewRequest(op: Operation) returns (id: RequestId)
      modifies this
      ensures View() == CreateRequest(old(View()), op) && id == NextId(old(View()))
    {
      requestSequence := requestSequence + 1;
      id := RequestId(generation, requestSequence);
      pending := pending[id := op];
    }

    /** `abortTransfers` */
    method AbortBoth()
      modifies this`uploadState, this`downloadState
      ensures View() == AbortTransfers(old(View()))
    {
      uploadState, downloadState := None, None;
    }

    method ForgetRequests()
      modifies this`pending, this`activeListRequest
      ensures View() == old(View()).(pending := map[], activeList := None)
    {
      pending, activeListRequest := map[], None;
    }

    method ForgetRequest(id: RequestId)
      modifies this`pending
      ensures View() == old(View()).(pending := old(View()).pending - {id})
    {
      pending := pending - {id};
    }

    /** The history starts anew at a directory. */
    method StartAt(path: Path)
      modifies this`cwd, this`homePath, this`history, this`historyIndex
      ensures View() == old(View()).(cwd := path, home := path, history := [path], historyIndex := 0)
    {
      cwd, homePath := path, path;
      history, historyIndex := [path], 0;
    }

    method ResetSession()
      modifies this
      ensures View() == DoReset(old(View()))
    {
      SendFrame(Bye);
      AbortBoth();
      ForgetRequests();
      StartAt("/");
      Disconnect();
      NewGeneration();
    }

    method Disconnect()
      modifies this`socket, this`ready
      ensures View() == old(View()).(socket := NoSocket, ready := false)
    {
      socket, ready := NoSocket, false;
    }

    method NewGeneration()
      modifies this`generation, this`uploadConfirmationPending, this`entries
      ensures View() == old(View()).(generation := old(View()).generation + 1, confirming := false, entries := [])
    {
      generation := generation + 1;
      uploadConfirmationPending, entries := false, [];
    }

    method OnClose(shown: bool)
      modifies this
      ensures View() == DoClosed(old(View()), shown)
    {
      if socket.NoSocket? { return; }
      AbortBoth();
      ForgetRequests();
      Disconnect();
      if shown { entries := []; }
    }

    // ----- Listings -----

    method List(path: Path, mode: HistoryMode)
      modifies this
      ensures View() == RequestList(old(View()), path, mode)
    {
      hide ValidPath;
      if !ready || !socket.Open? || !ValidPath(path) { return; }
      if activeListRequest.Some? { pending := pending - {activeListRequest.value}; }
      var id := NewRequest(Listing(path, mode));
      activeListRequest := Some(id);
      SendFrame(ListDir(id, path));
    }

    method GoBack()
      requires historyIndex <= |history|
      modifies this
      ensures View() == DoBack(old(View()))
    {
      hide RequestList;
      if !ready || historyIndex <= 0 { return; }
      List(history[historyIndex - 1], Index(historyIndex - 1));
    }

    method RefreshListing()
      modifies this
      ensures View() == DoRefresh(old(View()))
    {
      hide RequestList;
      if ready { List(cwd, Keep); }
    }

    method HandleReady(path: Option<Path>)
      modifies this
      ensures View() == DoReady(old(View()), path)
    {
      hide RequestList, ValidPath;
      if ready { return; }
      var dir := "/";
      if path.Some? && ValidPath(path.value) { dir := path.value; }
      StartAt(dir);
      ready := true;
      List(dir, Keep);
    }

    method HandleListResult(id: RequestId, path: Option<Path>, listing: Option<seq<string>>)
      requires 0 <= historyIndex < |history|
      modifies this
      ensures View() == DoListResult(old(View()), id, path, listing)
    {
      hide ValidPath, ShowListing;
      if id !in pending || id.generation != generation || !pending[id].Listing? { return; }
      var op := pending[id];
      pending := pending - {id};
      if activeListRequest != Some(id) { return; }
      activeListRequest := None;
      var shown := if path.Some? then path.value else op.path;
      if !ValidPath(shown) || listing.None? { return; }
      Show(shown, op.mode, listing.value);
    }

    method Show(path: Path, mode: HistoryMode, listing: seq<string>)
      requires 0 <= historyIndex < |history|
      modifies this
      ensures View() == ShowListing(old(View()), path, mode, listing)
    {
      hide ShowListing;
      ShowingSplits(View(), path, mode, listing);
      Remember(path, mode);
      cwd, entries := path, listing;
    }

    method Remember(path: Path, mode: HistoryMode)
      requires 0 <= historyIndex < |history|
      modifies this`history, this`historyIndex
      ensures var s := ShowListing(old(View()), path, mode, []); history == s.history && historyIndex == s.historyIndex
    {
      if mode.Push? && history[historyIndex] != path {
        history := history[..historyIndex + 1];
        history := history + [path];
        historyIndex := |history| - 1;
      } else if mode.Index? {
        historyIndex := mode.at;
      }
    }

    // ----- Uploads -----

    method StartUpload(asked: nat, file: seq<Byte>)
      modifies this
      ensures View() == BeginUpload(old(View()), asked, file)
    {
      if asked != generation || !ready || uploadState.Some? || downloadState.Some? || !socket.Open? { return; }
      var id := NewRequest(Transfer);
      uploadState := Some(Upload(id, file, 0, 0, false, false, false, false, false));
      SendFrame(UploadStart(id, file));
    }

    method UploadFile(file: seq<Byte>, present: bool)
      modifies this
      ensures View() == DoAskUpload(old(View()), file, present)
    {
      hide BeginUpload;
      if !ready || uploadState.Some? || downloadState.Some? || uploadConfirmationPending { return; }
      if |file| > MAX_FILE_SIZE { return; }
      if present {
        uploadConfirmationPending := true;
        questions := questions + [Question(generation, file)];
      } else {
        StartUpload(generation, file);
      }
    }

    method AnswerQuestion(k: nat, overwrite: bool)
      modifies this
      ensures View() == DoAnswer(old(View()), k, overwrite)
    {
      hide BeginUpload;
      if k >= |questions| { return; }
      var q := questions[k];
      questions := questions[..k] + questions[k + 1..];
      if q.generation == generation { uploadConfirmationPending := false; }
      if overwrite { StartUpload(q.generation, q.file); }
    }

    /** Up to the await of the slice. */
    method SendNextUploadChunk(u: Upload)
      requires uploadState == Some(u)
      modifies this
      ensures View() == SendNextChunk(old(View()), u)
    {
      if u.id.generation != generation || !u.readyForData || u.cancelling || u.awaitingAck || u.endSent ||
        !socket.Open? {
        return;
      }
      if u.sent >= |u.file| {
        uploadState := Some(u.(endSent := true));
        SendFrame(UploadEnd(u.id));
        return;
      }
      var end := Min(|u.file|, u.sent + CHUNK_SIZE);
      waiting := ReadingSlice(u.id, end, u.file[u.sent..end]);
    }

    /** After the await. */
    method SliceArrived(id: RequestId, end: nat, slice: seq<Byte>)
      modifies this
      ensures View() == SliceRead(old(View()), id, end, slice)
    {
      if uploadState.None? || uploadState.value.id != id || id.generation != generation { return; }
      if uploadState.value.cancelling || !socket.Open? { return; }
      SendFrame(Data(slice));
      uploadState := Some(uploadState.value.(sent := end, awaitingAck := true));
    }

    method CancelOnWire(u: Upload)
      requires uploadState == Some(u)
      modifies this
      ensures View() == SendUploadCancel(old(View()), u)
    {
      if u.cancelSent || !u.readyForData || !socket.Open? { return; }
      uploadState := Some(u.(cancelSent := true));
      SendFrame(UploadCancel(u.id));
    }

    /** The state of a changed upload: send what is next, or the cancel that waited. */
    method Proceed(u: Upload)
      modifies this
      ensures View() == if u.cancelling then SendUploadCancel(old(View()), u) else SendNextChunk(old(View()), u)
    {
      hide SendUploadCancel, SendNextChunk;
      SettingTwice(View(), u);
      uploadState := Some(u);
      if u.cancelling { CancelOnWire(u); } else { SendNextUploadChunk(u); }
    }

    method HandleUploadReady(id: RequestId)
      modifies this
      ensures View() == DoUploadReady(old(View()), id)
    {
      hide SendUploadCancel, SendNextChunk;
      if uploadState.None? || uploadState.value.id != id || id.generation != generation { return; }
      if uploadState.value.sent != 0 { return; }
      Proceed(uploadState.value.(readyForData := true));
    }

    method HandleUploadProgress(id: RequestId, loaded: Option<nat>)
      modifies this
      ensures View() == DoUploadProgress(old(View()), id, loaded)
    {
      hide SendUploadCancel, SendNextChunk;
      if uploadState.None? || uploadState.value.id != id || id.generation != generation { return; }
      acks := acks[id := Acks(View(), id) + 1];
      var u := uploadState.value;
      var loadedNow := if loaded.Some? then loaded.value else u.sent;
      Proceed(u.(acknowledged := Min(|u.file|, Max(u.acknowledged, loadedNow)), awaitingAck := false));
    }

    method HandleUploadComplete(id: RequestId)
      modifies this
      ensures View() == DoUploadComplete(old(View()), id)
    {
      hide DoRefresh;
      if uploadState.None? || uploadState.value.id != id || id.generation != generation { return; }
      pending := pending - {id};
      uploadState := None;
      RefreshListing();
    }

    method CancelTransfer()
      modifies this
      ensures View() == DoCancel(old(View()))
    {
      hide SendUploadCancel, SendDownloadCancel;
      if uploadState.Some? {
        if uploadState.value.cancelling || uploadState.value.endSent { return; }
        Proceed(uploadState.value.(cancelling := true));
      } else if downloadState.Some? {
        if downloadState.value.cancelling { return; }
        CancelDownload(downloadState.value.(cancelling := true));
      }
    }

    // ----- Downloads -----

    method DownloadSelected(expected: Option<nat>)
      modifies this
      ensures View() == DoAskDownload(old(View()), expected)
    {
      if !ready || uploadState.Some? || downloadState.Some? { return; }
      if expected.Some? && expected.value > MAX_FILE_SIZE { return; }
      var id := NewRequest(Transfer);
      downloadState := Some(Download(id, expected, [], 0, false, false, false));
      SendFrame(DownloadStart(id));
    }

    /** The state of a changed download, and its cancel once the server has started it. */
    method CancelDownload(d: Download)
      modifies this
      ensures View() == SendDownloadCancel(old(View()), d)
    {
      downloadState := Some(d);
      if d.cancelSent || !d.started || !socket.Open? { return; }
      downloadState := Some(d.(cancelSent := true));
      SendFrame(DownloadCancel(d.id));
    }

    method HandleDownloadStart(id: RequestId, size: Option<nat>)
      modifies this
      ensures View() == DoDownloadStarted(old(View()), id, size)
    {
      hide SendDownloadCancel;
      if downloadState.None? || downloadState.value.id != id || id.generation != generation { return; }
      var d := downloadState.value.(started := true, expected := size);
      if d.cancelling {
        CancelDownload(d);
      } else if size.Some? && size.value > MAX_FILE_SIZE {
        CancelDownload(d.(cancelling := true));
      } else {
        downloadState := Some(d);
      }
    }

    method HandleBinary(data: seq<Byte>, blob: bool)
      modifies this
      ensures View() == DoBinary(old(View()), data, blob)
    {
      hide AcceptBinary;
      if downloadState.None? || downloadState.value.id.generation != generation { return; }
      if blob {
        waiting := ReadingBlob(downloadState.value.id, data);
      } else {
        ChunkArrived(downloadState.value.id, data);
      }
    }

    method ChunkArrived(id: RequestId, data: seq<Byte>)
      modifies this
      ensures View() == AcceptBinary(old(View()), id, data)
    {
      hide SendDownloadCancel;
      if downloadState.None? || downloadState.value.id != id || id.generation != generation { return; }
      var d := downloadState.value;
      if d.cancelling { return; }
      if d.received + |data| > MAX_FILE_SIZE {
        CancelDownload(d.(cancelling := true));
        return;
      }
      downloadState := Some(d.(chunks := d.chunks + [data], received := d.received + |data|));
    }

    method HandleDownloadDone(id: RequestId, size: Option<nat>)
      modifies this
      ensures View() == DoDownloadDone(old(View()), id, size)
    {
      hide Flatten;
      if downloadState.None? || downloadState.value.id != id || id.generation != generation { return; }
      var d := downloadState.value;
      ForgetRequest(id);
      AbortBoth();
      if d.cancelling { return; }
      var expected := if size.Some? then size else d.expected;
      if expected.Some? && d.received != expected.value { return; }
      saved := saved + [Flatten(d.chunks)];
    }

    // ----- Both -----

    method HandleReadFinished()
      modifies this
      ensures View() == DoReadFinished(old(View()))
    {
      hide SliceRead, AcceptBinary;
      var w := waiting;
      waiting := NotWaiting;
      match w
      case NotWaiting =>
      case ReadingSlice(id, end, slice) => SliceArrived(id, end, slice);
      case ReadingBlob(id, data) => ChunkArrived(id, data);
    }

    method HandleServerError(of: Option<RequestId>)
      modifies this
      ensures View() == DoError(old(View()), of)
    {
      if of.None? || of.value !in pending || of.value.generation != generation { return; }
      var id := of.value;
      var op := pending[id];
      pending := pending - {id};
      if op.Listing? && activeListRequest != Some(id) { return; }
      if activeListRequest == Some(id) { activeListRequest := None; }
      if (uploadState.Some? && uploadState.value.id == id) || (downloadState.Some? && downloadState.value.id == id) {
        AbortBoth();
      }
    }

    method HandleCancelled(id: RequestId, isUpload: bool)
      modifies this
      ensures View() == DoCancelled(old(View()), id, isUpload)
    {
      if id.generation != generation { return; }
      if isUpload {
        if uploadState.None? || uploadState.value.id != id || !uploadState.value.cancelling { return; }
      } else {
        if downloadState.None? || downloadState.value.id != id || !downloadState.value.cancelling { return; }
      }
      ForgetRequest(id);
      AbortBoth();
    }

    method HandleMutationResult(id: RequestId)
      modifies this
      ensures View() == DoMutationResult(old(View()), id)
    {
      hide DoRefresh;
      if id !in pending || id.generation != generation || !pending[id].Mutation? { return; }
      pending := pending - {id};
      RefreshListing();
    }

    /** `handleSocketData`, for the message at the head of the queue. */
    method HandleSocketData(m: Message)
      requires 0 <= historyIndex < |history|
      modifies this
      ensures View() == HandleMessage(old(View()), m)
    {
      hide DoReady, DoListResult, DoMutationResult, DoCancelled, DoError;
      match m
      case Ready(path) => HandleReady(path);
      case ListResult(id, path, listing) => HandleListResult(id, path, listing);
      case MutationResult(id) => HandleMutationResult(id);
      case UploadCancelled(id) => HandleCancelled(id, true);
      case DownloadCancelled(id) => HandleCancelled(id, false);
      case Error(of) => HandleServerError(of);
      case ClosedByServer => if !socket.NoSocket? { socket := Closing; }
      case Other =>
      case _ => HandleTransferData(m);
    }

    method HandleTransferData(m: Message)
      requires m.UploadReady? || m.UploadProgress? || m.UploadComplete? || m.DownloadStarted? || m.Binary? ||
        m.DownloadDone?
      modifies this
      ensures View() == HandleMessage(old(View()), m)
    {
      hide DoUploadReady, DoUploadProgress, DoBinary, DoDownloadStarted, DoDownloadDone, DoUploadComplete;
      match m
      case UploadReady(id) => HandleUploadReady(id);
      case UploadProgress(id, loaded) => HandleUploadProgress(id, loaded);
      case UploadComplete(id) => HandleUploadComplete(id);
      case DownloadStarted(id, size) => HandleDownloadStart(id, size);
      case Binary(data, blob) => HandleBinary(data, blob);
      case DownloadDone(id, size) => HandleDownloadDone(id, size);
    }
  }

  lemma ShowingSplits(s: State, path: Path, mode: HistoryMode, listing: seq<string>)
    ensures var h := ShowListing(s, path, mode, []);
      ShowListing(s, path, mode, listing)
        == s.(cwd := path, entries := listing, history := h.history, historyIndex := h.historyIndex)
  {
  }

  lemma NextReadFinished(s: State)
    ensures Next(s, ReadFinished) == DoReadFinished(s)
  {
  }

  lemma SettingTwice(s: State, u: Upload)
    ensures SendNextChunk(s.(upload := Some(u)), u) == SendNextChunk(s, u)
    ensures SendUploadCancel(s.(upload := Some(u)), u) == SendUploadCancel(s, u)
  {
  }

  /**
   Any events, in any order: the object goes through exactly the runs of the protocol, and what
   it has sent and saved is safe.
   */
  method Drive(events: seq<Event>) returns (fm: FileManager)
    ensures fresh(fm) && fm.View() == Run(events) && fm.Valid()
    ensures forall id, file :: UploadStart(id, file) in fm.wire ==>
      Safety.UploadIsSound(fm.wire, fm.acks, id, file)
    ensures !(fm.uploadState.Some? && fm.downloadState.Some?) && 0 <= fm.historyIndex < |fm.history|
  {
    fm := new FileManager();
    for i := 0 to |events|
      invariant fresh(fm) && fm.View() == Run(events[..i]) && fm.Valid()
    {
      hide Next, Safety.TransfersSafe, Browsing.TabInv, Browsing.TabOf;
      fm.Step(events[i]);
      assert events[..i + 1][..i] == events[..i];
    }
    assert events[..|events|] == events;
  }
}
