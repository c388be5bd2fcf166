/** How transfers, questions and sessions of the file manager end and begin again, over every run. */
module FileManagerSessions {
  import opened Wrappers
  import opened FileManagerProtocol
  import opened FileManagerSafety
  import opened FileManagerCancels

  // ----- Every transfer can end -----

  /** What the records of open requests depend on. */
  datatype Ledger = Ledger(generation: nat, sequence: nat, pending: map<RequestId, Operation>,
                         active: Option<RequestId>, up: Option<RequestId>, down: Option<RequestId>)

  function LedgerOf(s: State): Ledger {
    Ledger(s.generation, s.sequence, s.pending, s.activeList,
          if s.upload.Some? then Some(s.upload.value.id) else None,
          if s.download.Some? then Some(s.download.value.id) else None)
  }

  /** Transfers and the listing waited for belong to the session and have their records. */
  predicate Booked(f: Ledger) {
    && (f.up.Some? ==> TransferBooked(f, f.up.value)) && (f.down.Some? ==> TransferBooked(f, f.down.value))
    && (f.active.Some? ==>
          && f.active.value.generation == f.generation && f.active.value.sequence <= f.sequence
          && f.active.value in f.pending && f.pending[f.active.value].Listing?)
  }

  predicate TransferBooked(f: Ledger, id: RequestId) {
    id.generation == f.generation && id.sequence <= f.sequence && id in f.pending && f.pending[id].Transfer?
  }

  function WithRequest(f: Ledger, op: Operation): Ledger {
    f.(sequence := f.sequence + 1, pending := f.pending[RequestId(f.generation, f.sequence + 1) := op])
  }

  /** The ways a step may change the records. */
  predicate LedgerMoves(f: Ledger, g: Ledger) {
    || g == f || g == f.(active := None) || g == f.(up := None, down := None)
    || g == f.(pending := map[], active := None, up := None, down := None)
    || g == f.(generation := f.generation + 1, pending := map[], active := None, up := None, down := None)
    || g == WithRequest(f, Mutation)
    || (f.up.None? && f.down.None? &&
        g == WithRequest(f, Transfer).(up := Some(RequestId(f.generation, f.sequence + 1))))
    || (f.up.None? && f.down.None? &&
        g == WithRequest(f, Transfer).(down := Some(RequestId(f.generation, f.sequence + 1))))
  }

  /** A listing replaces the one waited for. */
  function WithListing(f: Ledger, path: Path, mode: HistoryMode): Ledger {
    var f1 := if f.active.Some? then f.(pending := f.pending - {f.active.value}) else f;
    WithRequest(f1, Listing(path, mode)).(active := Some(RequestId(f.generation, f.sequence + 1)))
  }

  /** A record goes; the transfer it belonged to goes with it, and a listing is no longer waited for. */
  predicate Drops(f: Ledger, id: RequestId, g: Ledger) {
    && g.generation == f.generation && g.sequence == f.sequence && g.pending == f.pending - {id}
    && (g.active == None || (g.active == f.active && f.active != Some(id)))
    && (g.up == None || (g.up == f.up && f.up != Some(id)))
    && (g.down == None || (g.down == f.down && f.down != Some(id)))
  }

  lemma MoveBooked(f: Ledger, g: Ledger)
    requires Booked(f) && LedgerMoves(f, g)
    ensures Booked(g)
  {
  }

  lemma ListingBooked(f: Ledger, path: Path, mode: HistoryMode)
    requires Booked(f)
    ensures Booked(WithListing(f, path, mode))
  {
  }

  lemma DropBooked(f: Ledger, id: RequestId, g: Ledger)
    requires Booked(f) && Drops(f, id, g)
    ensures Booked(g)
  {
  }

  lemma SendLedger(s: State, frame: Frame)
    ensures LedgerOf(Send(s, frame)) == LedgerOf(s)
  {
  }

  lemma RequestListLedger(s: State, path: Path, mode: HistoryMode)
    ensures LedgerOf(RequestList(s, path, mode)) in {LedgerOf(s), WithListing(LedgerOf(s), path, mode)}
  {
    hide ValidPath, Send;
    var s1 := if s.activeList.Some? then s.(pending := s.pending - {s.activeList.value}) else s;
    SendLedger(CreateRequest(s1, Listing(path, mode)).(activeList := Some(NextId(s))), ListDir(NextId(s), path));
  }

  lemma RequestListBooked(s: State, path: Path, mode: HistoryMode)
    requires Booked(LedgerOf(s))
    ensures Booked(LedgerOf(RequestList(s, path, mode)))
  {
    hide *;
    RequestListLedger(s, path, mode);
    ListingBooked(LedgerOf(s), path, mode);
  }

  lemma BeginUploadLedger(s: State, generation: nat, file: seq<Byte>)
    ensures LedgerMoves(LedgerOf(s), LedgerOf(BeginUpload(s, generation, file)))
  {
    hide Send;
    var u := Upload(NextId(s), file, 0, 0, false, false, false, false, false);
    SendLedger(CreateRequest(s, Transfer).(upload := Some(u)), UploadStart(NextId(s), file));
  }

  lemma AskDownloadLedger(s: State, expected: Option<nat>)
    ensures LedgerMoves(LedgerOf(s), LedgerOf(DoAskDownload(s, expected)))
  {
    hide Send;
    var d := Download(NextId(s), expected, [], 0, false, false, false);
    SendLedger(CreateRequest(s, Transfer).(download := Some(d)), DownloadStart(NextId(s)));
  }

  lemma MutationLedger(s: State)
    ensures LedgerMoves(LedgerOf(s), LedgerOf(Next(s, AskMutation)))
  {
    hide Send;
    SendLedger(CreateRequest(s, Mutation), Mutate(NextId(s)));
  }

  lemma SendUploadCancelLedger(s: State, u: Upload)
    ensures LedgerOf(SendUploadCancel(s, u)) == LedgerOf(s).(up := Some(u.id))
  {
    hide Send;
    SendLedger(s.(upload := Some(u.(cancelSent := true))), UploadCancel(u.id));
  }

  lemma SendNextChunkLedger(s: State, u: Upload)
    ensures LedgerOf(SendNextChunk(s, u)) == LedgerOf(s).(up := Some(u.id))
  {
    hide Send, Min;
    SendLedger(s.(upload := Some(u.(endSent := true))), UploadEnd(u.id));
  }

  lemma UploadReadyLedger(s: State, id: RequestId)
    ensures LedgerOf(DoUploadReady(s, id)) == LedgerOf(s)
  {
    hide SendUploadCancel, SendNextChunk;
    if s.upload.Some? {
      SendUploadCancelLedger(s, s.upload.value.(readyForData := true));
      SendNextChunkLedger(s, s.upload.value.(readyForData := true));
    }
  }

  lemma UploadProgressLedger(s: State, id: RequestId, loaded: Option<nat>)
    ensures LedgerOf(DoUploadProgress(s, id, loaded)) == LedgerOf(s)
  {
    hide SendUploadCancel, SendNextChunk;
    if s.upload.Some? {
      var u0 := s.upload.value;
      var loadedNow := if loaded.Some? then loaded.value else u0.sent;
      var u := u0.(acknowledged := Min(|u0.file|, Max(u0.acknowledged, loadedNow)), awaitingAck := false);
      SendUploadCancelLedger(s.(acks := s.acks[id := Acks(s, id) + 1]), u);
      SendNextChunkLedger(s.(acks := s.acks[id := Acks(s, id) + 1]), u);
    }
  }

  lemma SendDownloadCancelLedger(s: State, d: Download)
    ensures LedgerOf(SendDownloadCancel(s, d)) == LedgerOf(s).(down := Some(d.id))
  {
    hide Send;
    SendLedger(s.(download := Some(d.(cancelSent := true))), DownloadCancel(d.id));
  }

  lemma CancelLedger(s: State)
    ensures LedgerOf(DoCancel(s)) == LedgerOf(s)
  {
    hide SendUploadCancel, SendDownloadCancel;
    if s.upload.Some? {
      SendUploadCancelLedger(s, s.upload.value.(cancelling := true));
    } else if s.download.Some? {
      SendDownloadCancelLedger(s, s.download.value.(cancelling := true));
    }
  }

  lemma BinaryLedger(s: State, id: RequestId, data: seq<Byte>, blob: bool)
    ensures LedgerOf(AcceptBinary(s, id, data)) == LedgerOf(s) == LedgerOf(DoBinary(s, data, blob))
  {
    hide SendDownloadCancel;
    if s.download.Some? { SendDownloadCancelLedger(s, s.download.value.(cancelling := true)); }
  }

  lemma DownloadStartedLedger(s: State, id: RequestId, size: Option<nat>)
    ensures LedgerOf(DoDownloadStarted(s, id, size)) == LedgerOf(s)
  {
    hide SendDownloadCancel;
    if s.download.Some? {
      var d := s.download.value.(started := true, expected := size);
      SendDownloadCancelLedger(s, d);
      SendDownloadCancelLedger(s, d.(cancelling := true));
    }
  }

  lemma ReadFinishedLedger(s: State)
    ensures LedgerOf(DoReadFinished(s)) == LedgerOf(s)
  {
    hide AcceptBinary, Send;
    var s1 := s.(waiting := NotWaiting);
    match s.waiting
    case NotWaiting =>
    case ReadingSlice(id, end, slice) => SendLedger(s1, Data(slice));
    case ReadingBlob(id, data) => BinaryLedger(s1, id, data, true);
  }

  lemma SessionLedger(s: State, shown: bool)
    ensures LedgerMoves(LedgerOf(s), LedgerOf(DoReset(s))) && LedgerMoves(LedgerOf(s), LedgerOf(DoAttach(s)))
    ensures LedgerMoves(LedgerOf(s), LedgerOf(DoClosed(s, shown))) && LedgerOf(DoOpened(s)) == LedgerOf(s)
  {
    hide Send;
    SendLedger(s, Bye);
    SendLedger(s.(socket := Open), Init);
  }

  lemma DownloadDoneLedger(s: State, id: RequestId, size: Option<nat>)
    requires Booked(LedgerOf(s)) && (s.upload.None? || s.download.None?)
    ensures DoDownloadDone(s, id, size) == s || Drops(LedgerOf(s), id, LedgerOf(DoDownloadDone(s, id, size)))
  {
    hide Flatten;
  }

  lemma CancelledLedger(s: State, id: RequestId, upload: bool)
    requires Booked(LedgerOf(s)) && (s.upload.None? || s.download.None?)
    ensures DoCancelled(s, id, upload) == s || Drops(LedgerOf(s), id, LedgerOf(DoCancelled(s, id, upload)))
  {
  }

  lemma ErrorResult(s: State, id: RequestId)
    requires id in s.pending && id.generation == s.generation
    ensures var f := LedgerOf(s); var g := f.(pending := f.pending - {id});
      var h := if f.active == Some(id) then g.(active := None) else g;
      LedgerOf(DoError(s, Some(id))) ==
        if s.pending[id].Listing? && f.active != Some(id) then g
        else if f.up == Some(id) || f.down == Some(id) then h.(up := None, down := None) else h
  {
  }

  lemma ErrorLedger(s: State, id: RequestId)
    requires Booked(LedgerOf(s)) && id in s.pending && id.generation == s.generation
    ensures Drops(LedgerOf(s), id, LedgerOf(DoError(s, Some(id))))
  {
    ErrorResult(s, id);
    assert LedgerOf(s).pending == s.pending;
    hide DoError, LedgerOf;
  }

  lemma ListResultLedger(s: State, id: RequestId, path: Option<Path>, entries: Option<seq<string>>)
    requires Booked(LedgerOf(s))
    ensures var t := DoListResult(s, id, path, entries); t == s || Drops(LedgerOf(s), id, LedgerOf(t))
  {
    if id in s.pending && id.generation == s.generation && s.pending[id].Listing? {
      ListResultDrops(s, id, path, entries);
      assert LedgerOf(s).pending == s.pending;
    }
    hide DoListResult, LedgerOf;
  }

  lemma ListResultDrops(s: State, id: RequestId, path: Option<Path>, entries: Option<seq<string>>)
    requires id in s.pending && id.generation == s.generation && s.pending[id].Listing?
    ensures var f, g := LedgerOf(s), LedgerOf(DoListResult(s, id, path, entries));
      g == f.(pending := f.pending - {id}, active := if f.active == Some(id) then None else f.active)
  {
    hide ShowListing, ValidPath;
    if entries.Some? {
      ShowListingLedger(s.(pending := s.pending - {id}).(activeList := None),
        if path.Some? then path.value else s.pending[id].path, s.pending[id].mode, entries.value);
    }
  }

  lemma ShowListingLedger(s: State, path: Path, mode: HistoryMode, entries: seq<string>)
    ensures LedgerOf(ShowListing(s, path, mode, entries)) == LedgerOf(s)
  {
    ShowListingView(s, path, mode, entries);
    hide ShowListing;
  }

  lemma ShowListingView(s: State, path: Path, mode: HistoryMode, entries: seq<string>)
    ensures var t := ShowListing(s, path, mode, entries);
      t == s.(cwd := t.cwd, entries := t.entries, history := t.history, historyIndex := t.historyIndex)
  {
  }

  lemma DropsBooked(s: State, id: RequestId, t: State)
    requires Booked(LedgerOf(s)) && (t == s || Drops(LedgerOf(s), id, LedgerOf(t)))
    ensures Booked(LedgerOf(t))
  {
    hide LedgerOf;
    if t != s { DropBooked(LedgerOf(s), id, LedgerOf(t)); }
  }

  lemma RefreshBooked(s: State)
    requires Booked(LedgerOf(s))
    ensures Booked(LedgerOf(DoRefresh(s)))
  {
    hide RequestList, Booked, LedgerOf;
    RequestListBooked(s, s.cwd, Keep);
  }

  lemma UploadCompleteBooked(s: State, id: RequestId)
    requires Booked(LedgerOf(s)) && (s.upload.None? || s.download.None?)
    ensures Booked(LedgerOf(DoUploadComplete(s, id)))
  {
    hide DoRefresh;
    if UploadMatches(s, id) {
      var t := s.(pending := s.pending - {id}, upload := None);
      assert Drops(LedgerOf(s), id, LedgerOf(t));
      DropsBooked(s, id, t);
      RefreshBooked(t);
    }
  }

  lemma MutationResultBooked(s: State, id: RequestId)
    requires Booked(LedgerOf(s))
    ensures Booked(LedgerOf(DoMutationResult(s, id)))
  {
    hide DoRefresh;
    if id in s.pending && id.generation == s.generation && s.pending[id].Mutation? {
      var t := s.(pending := s.pending - {id});
      assert Drops(LedgerOf(s), id, LedgerOf(t));
      DropsBooked(s, id, t);
      RefreshBooked(t);
    }
  }

  lemma ReadyBooked(s: State, cwd: Option<Path>)
    requires Booked(LedgerOf(s))
    ensures Booked(LedgerOf(DoReady(s, cwd)))
  {
    hide RequestList, Booked;
    var path := if cwd.Some? && ValidPath(cwd.value) then cwd.value else "/";
    var t := s.(ready := true, cwd := path, home := path, history := [path], historyIndex := 0);
    assert LedgerOf(t) == LedgerOf(s);
    RequestListBooked(t, path, Keep);
  }

  lemma BrowseBooked(s: State, e: Event)
    requires Booked(LedgerOf(s)) && (e.Navigate? || e.Back? || e.Refresh?)
    ensures Booked(LedgerOf(Next(s, e)))
  {
    hide RequestList, DoRefresh, Booked, LedgerOf;
    match e
    case Navigate(path) => RequestListBooked(s, path, Push);
    case Back =>
      if s.ready && 0 < s.historyIndex <= |s.history| {
        RequestListBooked(s, s.history[s.historyIndex - 1], Index(s.historyIndex - 1));
      }
    case Refresh => RefreshBooked(s);
  }

  lemma QuestionLedger(s: State, t: State)
    requires t == s.(questions := t.questions, confirming := t.confirming)
    ensures LedgerOf(t) == LedgerOf(s)
  {
  }

  lemma AskUploadLedger(s: State, file: seq<Byte>, present: bool)
    ensures LedgerMoves(LedgerOf(s), LedgerOf(DoAskUpload(s, file, present)))
  {
    hide BeginUpload, LedgerOf;
    QuestionLedger(s, s.(confirming := true, questions := s.questions + [Question(s.generation, file)]));
    BeginUploadLedger(s, s.generation, file);
  }

  lemma AnswerLedger(s: State, k: nat, overwrite: bool)
    ensures LedgerMoves(LedgerOf(s), LedgerOf(DoAnswer(s, k, overwrite)))
  {
    hide BeginUpload, LedgerOf;
    if k < |s.questions| {
      var q := s.questions[k];
      var s1 := s.(questions := s.questions[..k] + s.questions[k + 1..]);
      var s2 := if q.generation == s.generation then s1.(confirming := false) else s1;
      QuestionLedger(s, s2);
      BeginUploadLedger(s2, q.generation, q.file);
    }
  }

  lemma ErrorBooked(s: State, of: Option<RequestId>)
    requires Booked(LedgerOf(s))
    ensures Booked(LedgerOf(DoError(s, of)))
  {
    hide Booked, LedgerOf;
    if of.Some? && of.value in s.pending && of.value.generation == s.generation {
      ErrorLedger(s, of.value);
      DropsBooked(s, of.value, DoError(s, of));
    }
  }

  lemma MessageBooked(s: State, m: Message)
    requires Booked(LedgerOf(s)) && (s.upload.None? || s.download.None?)
    ensures Booked(LedgerOf(HandleMessage(s, m)))
  {
    hide Booked, Drops, DoReady, DoListResult, DoUploadReady, DoUploadProgress, DoBinary,
         DoDownloadStarted, DoDownloadDone, DoUploadComplete, DoMutationResult, DoCancelled, DoError;
    var t := HandleMessage(s, m);
    match m
    case Ready(cwd) => ReadyBooked(s, cwd);
    case ListResult(id, path, entries) => ListResultLedger(s, id, path, entries); DropsBooked(s, id, t);
    case UploadReady(id) => UploadReadyLedger(s, id);
    case UploadProgress(id, loaded) => UploadProgressLedger(s, id, loaded);
    case UploadComplete(id) => UploadCompleteBooked(s, id);
    case DownloadStarted(id, size) => DownloadStartedLedger(s, id, size);
    case Binary(data, blob) => BinaryLedger(s, NextId(s), data, blob);
    case DownloadDone(id, size) => DownloadDoneLedger(s, id, size); DropsBooked(s, id, t);
    case UploadCancelled(id) => CancelledLedger(s, id, true); DropsBooked(s, id, t);
    case DownloadCancelled(id) => CancelledLedger(s, id, false); DropsBooked(s, id, t);
    case Error(of) => ErrorBooked(s, of);
    case MutationResult(id) => MutationResultBooked(s, id);
    case ClosedByServer =>
    case Other =>
  }

  lemma StepBooked(s: State, e: Event)
    requires Booked(LedgerOf(s)) && (s.upload.None? || s.download.None?)
    ensures Booked(LedgerOf(Next(s, e)))
  {
    hide Booked, LedgerMoves, HandleMessage, DoAskUpload, DoAnswer, DoAskDownload, DoCancel, DoReset, DoAttach,
         DoOpened, DoClosed, DoReadFinished, RequestList, DoBack, DoRefresh, Send;
    var f, g := LedgerOf(s), LedgerOf(Next(s, e));
    match e
    case Attach => SessionLedger(s, false); MoveBooked(f, g);
    case Opened => SessionLedger(s, false);
    case SocketClosing =>
    case Closed(shown) => SessionLedger(s, shown); MoveBooked(f, g);
    case Reset => SessionLedger(s, false); MoveBooked(f, g);
    case Navigate(_) => BrowseBooked(s, e);
    case Back => BrowseBooked(s, e);
    case Refresh => BrowseBooked(s, e);
    case AskMutation => MutationLedger(s); MoveBooked(f, g);
    case AskUpload(file, present) => AskUploadLedger(s, file, present); MoveBooked(f, g);
    case Answer(k, overwrite) => AnswerLedger(s, k, overwrite); MoveBooked(f, g);
    case AskDownload(expected) => AskDownloadLedger(s, expected); MoveBooked(f, g);
    case Cancel => CancelLedger(s);
    case Server(_, m) => MessageBooked(s, m);
    case ReadFinished => ReadFinishedLedger(s);
  }

  lemma {:induction false} EveryRunIsBooked(events: seq<Event>)
    ensures Booked(LedgerOf(Run(events)))
  {
    hide Next, TransfersSafe;
    if events != [] {
      var before := events[..|events| - 1];
      EveryRunIsBooked(before);
      EveryRunIsSafe(before);
      SavedBounded(Run(before));
      StepBooked(Run(before), events[|events| - 1]);
    }
  }

  /** Nothing in progress, and the session as it was. */
  predicate Freed(s: State, t: State) {
    && !HasTransfer(t) && t.ready == s.ready && t.socket == s.socket && t.generation == s.generation
    && t.waiting == s.waiting && t.confirming == s.confirming
  }

  lemma ErrorFrees(s: State, id: RequestId)
    requires Booked(LedgerOf(s)) && (s.upload.None? || s.download.None?)
    requires LedgerOf(s).up == Some(id) || LedgerOf(s).down == Some(id)
    ensures Freed(s, DoError(s, Some(id))) && DoError(s, Some(id)).wire == s.wire
  {
  }

  lemma RefreshKeeps(s: State)
    ensures var t := DoRefresh(s);
      && t.upload == s.upload && t.download == s.download && t.ready == s.ready && t.socket == s.socket
      && t.generation == s.generation && t.waiting == s.waiting && t.confirming == s.confirming
  {
    hide ValidPath;
  }

  lemma UploadCompleteFrees(s: State, id: RequestId)
    requires UploadMatches(s, id) && s.download.None?
    ensures Freed(s, DoUploadComplete(s, id))
  {
    hide DoRefresh;
    RefreshKeeps(s.(pending := s.pending - {id}, upload := None));
  }

  /**
   In every run an upload in progress can end: its completion and its error free the session, and so
   does the answer to its cancel, which is ignored unless it was cancelled.
   */
  lemma UploadCanEnd(events: seq<Event>)
    requires Run(events).upload.Some? && Run(events).waiting.NotWaiting?
    ensures var s := Run(events); var u := s.upload.value;
      && Freed(s, Next(s, Server(s.generation, UploadComplete(u.id))))
      && Freed(s, Next(s, Server(s.generation, Error(Some(u.id)))))
      && var t := Next(s, Server(s.generation, UploadCancelled(u.id)));
         if u.cancelling then Freed(s, t) && t.wire == s.wire else t == s
  {
    hide Run, DoUploadComplete, DoError, TransfersSafe;
    EveryRunIsBooked(events);
    EveryRunIsSafe(events);
    SavedBounded(Run(events));
    UploadCompleteFrees(Run(events), Run(events).upload.value.id);
    ErrorFrees(Run(events), Run(events).upload.value.id);
  }

  /** The same for downloads. */
  lemma DownloadCanEnd(events: seq<Event>, size: Option<nat>)
    requires Run(events).download.Some? && Run(events).waiting.NotWaiting?
    ensures var s := Run(events); var d := s.download.value;
      && Freed(s, Next(s, Server(s.generation, DownloadDone(d.id, size))))
      && Freed(s, Next(s, Server(s.generation, Error(Some(d.id)))))
      && var t := Next(s, Server(s.generation, DownloadCancelled(d.id)));
         if d.cancelling then Freed(s, t) && t.wire == s.wire && t.saved == s.saved else t == s
  {
    hide Run, DoError, DoDownloadDone, DoCancelled, TransfersSafe;
    EveryRunIsBooked(events);
    EveryRunIsSafe(events);
    SavedBounded(Run(events));
    ErrorFrees(Run(events), Run(events).download.value.id);
    DownloadEnds(Run(events), size);
  }

  lemma DownloadEnds(s: State, size: Option<nat>)
    requires s.download.Some? && s.upload.None? && s.download.value.id.generation == s.generation
    ensures var d := s.download.value; var t := DoCancelled(s, d.id, false);
      && Freed(s, DoDownloadDone(s, d.id, size))
      && if d.cancelling then Freed(s, t) && t.wire == s.wire && t.saved == s.saved else t == s
  {
    hide Flatten;
  }

  /** In every run the listing waited for can end: its error clears it, and a late error of another does not. */
  lemma ListingCanEnd(events: seq<Event>, id: RequestId)
    requires Run(events).activeList.Some? && Run(events).waiting.NotWaiting?
    ensures var s := Run(events); var t := Next(s, Server(s.generation, Error(Some(id))));
      && t.activeList == (if s.activeList == Some(id) then None else s.activeList)
      && (s.activeList == Some(id) ==> t.pending == s.pending - {id})
      && (t.cwd, t.history, t.historyIndex, t.entries) == (s.cwd, s.history, s.historyIndex, s.entries)
  {
    hide Run, TransfersSafe;
    EveryRunIsBooked(events);
    LedgerParts(Run(events));
    hide Booked, LedgerOf;
  }

  /** The directory is listed again on request, and after an upload or any other change on the server. */
  lemma RefreshLists(s: State)
    requires s.ready && s.socket.Open? && ValidPath(s.cwd)
    ensures var t := Next(s, Refresh);
      t.wire == s.wire + [ListDir(NextId(s), s.cwd)] && t.activeList == Some(NextId(s)) && t.cwd == s.cwd
  {
    hide ValidPath;
  }

  lemma ChangeIsFollowedByRefresh(events: seq<Event>, id: RequestId)
    requires var s := Run(events); s.waiting.NotWaiting? && s.ready && s.socket.Open? && ValidPath(s.cwd)
    requires var s := Run(events);
      || (s.upload.Some? && s.upload.value.id == id)
      || (id in s.pending && id.generation == s.generation && s.pending[id].Mutation?)
    ensures var s := Run(events); var done := if s.upload.Some? && s.upload.value.id == id then UploadComplete(id)
        else MutationResult(id);
      var t := Next(s, Server(s.generation, done));
      t.wire == s.wire + [ListDir(NextId(s), s.cwd)] && t.activeList == Some(NextId(s))
  {
    hide Run, ValidPath, TransfersSafe;
    EveryRunIsBooked(events);
    LedgerParts(Run(events));
    hide Booked, LedgerOf;
  }

  lemma LedgerParts(s: State)
    requires Booked(LedgerOf(s))
    ensures s.upload.Some? ==> s.upload.value.id.generation == s.generation && s.upload.value.id.sequence <= s.sequence
    ensures s.activeList.Some? ==> s.activeList.value in s.pending && s.activeList.value.generation == s.generation
  {
  }

  /** A file over 64 MiB is neither sent nor asked for; in an idle session any other is. */
  lemma TooLargeIsRefused(s: State, file: seq<Byte>, present: bool, expected: nat)
    ensures |file| > 67108864 ==> Next(s, AskUpload(file, present)) == s
    ensures expected > 67108864 ==> Next(s, AskDownload(Some(expected))) == s
    ensures s.ready && s.socket.Open? && !HasTransfer(s) && !s.confirming && |file| <= 67108864 ==>
      Next(s, AskUpload(file, false)).upload.Some?
    ensures s.ready && s.socket.Open? && !HasTransfer(s) && expected <= 67108864 ==>
      Next(s, AskDownload(Some(expected))).download.Some?
  {
  }

  /** A lost socket ends transfers and listings, and keeps the place and what was sent. */
  lemma SocketLost(s: State, shown: bool)
    requires !s.socket.NoSocket?
    ensures var t := Next(s, Closed(shown));
      && !HasTransfer(t) && !t.ready && t.socket.NoSocket? && t.pending == map[] && t.activeList == None
      && (t.cwd, t.home, t.history, t.historyIndex) == (s.cwd, s.home, s.history, s.historyIndex)
      && t.entries == (if shown then [] else s.entries) && t.wire == s.wire && t.saved == s.saved
      && t.generation == s.generation
  {
  }

  /** Messages about other requests leave the transfer in progress alone. */
  lemma OtherRepliesLeaveTransfer(s: State, other: RequestId, size: Option<nat>, m: Message)
    requires m == Error(Some(other)) || m == UploadComplete(other) || m == UploadCancelled(other)
      || m == DownloadDone(other, size) || m == DownloadCancelled(other)
    requires (s.upload.Some? ==> s.upload.value.id != other) && (s.download.Some? ==> s.download.value.id != other)
    ensures var t := Next(s, Server(s.generation, m)); t.upload == s.upload && t.download == s.download
  {
    hide DoRefresh, Flatten;
  }

  /** A reset says goodbye and forgets everything of the session. */
  lemma ResetForgets(s: State)
    ensures var t := Next(s, Reset);
      && !HasTransfer(t) && !t.ready && t.socket.NoSocket? && t.pending == map[] && t.activeList == None
      && (t.cwd, t.home, t.history, t.historyIndex, t.entries) == ("/", "/", ["/"], 0, []) && !t.confirming
      && t.generation == s.generation + 1 && t.wire == s.wire + (if s.socket.Open? then [Bye] else [])
  {
  }

  // ----- The cancel button -----

  /**
   In every run, cancelling an upload: the frame goes out at once if the server accepted the upload,
   and with its accept otherwise; an upload whose end is out cannot be cancelled.
   */
  lemma CancelUpload(events: seq<Event>)
    requires Run(events).upload.Some? && !Run(events).upload.value.cancelling && Run(events).socket.Open?
    ensures var s := Run(events); var u := s.upload.value; var t := Next(s, Cancel);
      if u.endSent then t == s
      else if u.readyForData then
        t == s.(upload := Some(u.(cancelling := true, cancelSent := true)), wire := s.wire + [UploadCancel(u.id)])
      else
        && t == s.(upload := Some(u.(cancelling := true)))
        && (s.waiting.NotWaiting? ==>
              Next(t, Server(s.generation, UploadReady(u.id))) ==
              s.(upload := Some(u.(cancelling := true, readyForData := true, cancelSent := true)),
                 wire := s.wire + [UploadCancel(u.id)]))
  {
    hide Run;
    EveryRunTells(events, false);
    EveryRunIsBooked(events);
    UploadAsTold(Run(events));
    hide Told, Booked, LedgerOf;
  }

  lemma UploadAsTold(s: State)
    requires Told(s, false) && Booked(LedgerOf(s)) && s.upload.Some? && !s.upload.value.cancelling
    ensures !s.upload.value.cancelSent && s.upload.value.id.generation == s.generation
    ensures !s.upload.value.readyForData ==> s.upload.value.sent == 0
  {
  }

  /** The same for a download: the frame goes out at once if the server has started, and with its start otherwise. */
  lemma CancelDownload(events: seq<Event>, size: Option<nat>)
    requires Run(events).download.Some? && !Run(events).download.value.cancelling && Run(events).socket.Open?
    ensures var s := Run(events); var d := s.download.value; var t := Next(s, Cancel);
      if d.started then
        t == s.(download := Some(d.(cancelling := true, cancelSent := true)), wire := s.wire + [DownloadCancel(d.id)])
      else
        && t == s.(download := Some(d.(cancelling := true)))
        && (s.waiting.NotWaiting? ==>
              Next(t, Server(s.generation, DownloadStarted(d.id, size))) ==
              s.(download := Some(d.(cancelling := true, started := true, expected := size, cancelSent := true)),
                 wire := s.wire + [DownloadCancel(d.id)]))
  {
    hide *;
    EveryRunTells(events, false);
    EveryRunIsBooked(events);
    EveryRunIsSafe(events);
    SavedBounded(Run(events));
    DownloadAsTold(Run(events));
    CancelPressed(Run(events));
    if !Run(events).download.value.started && Run(events).waiting.NotWaiting? {
      StartedCancelled(Next(Run(events), Cancel), size);
    }
  }

  lemma CancelPressed(s: State)
    requires s.download.Some? && s.upload.None? && !s.download.value.cancelling && !s.download.value.cancelSent
    requires s.socket.Open?
    ensures var d, t := s.download.value, Next(s, Cancel);
      if d.started then
        t == s.(download := Some(d.(cancelling := true, cancelSent := true)), wire := s.wire + [DownloadCancel(d.id)])
      else t == s.(download := Some(d.(cancelling := true)))
  {
  }

  lemma StartedCancelled(s: State, size: Option<nat>)
    requires s.download.Some? && s.download.value.cancelling && !s.download.value.cancelSent && s.socket.Open?
    requires s.waiting.NotWaiting? && s.download.value.id.generation == s.generation
    ensures var d := s.download.value;
      Next(s, Server(s.generation, DownloadStarted(d.id, size))) ==
      s.(download := Some(d.(started := true, expected := size, cancelSent := true)),
         wire := s.wire + [DownloadCancel(d.id)])
  {
  }

  lemma DownloadAsTold(s: State)
    requires Told(s, false) && Booked(LedgerOf(s)) && s.download.Some? && !s.download.value.cancelling
    ensures !s.download.value.cancelSent && s.download.value.id.generation == s.generation
  {
  }

  /** A download that proves too large is cancelled, whether announced so or found so. */
  lemma TooLargeIsCancelled(events: seq<Event>, size: nat, data: seq<Byte>)
    requires Run(events).download.Some? && !Run(events).download.value.cancelling && Run(events).socket.Open?
    requires Run(events).waiting.NotWaiting?
    ensures var s := Run(events); var d := s.download.value;
      && (size > MAX_FILE_SIZE ==>
            var t := Next(s, Server(s.generation, DownloadStarted(d.id, Some(size))));
            t.wire == s.wire + [DownloadCancel(d.id)] && t.download.Some? && t.download.value.cancelling)
      && (d.started && d.received + |data| > MAX_FILE_SIZE ==>
            var t := Next(s, Server(s.generation, Binary(data, false)));
            t.wire == s.wire + [DownloadCancel(d.id)] && t.download.Some? && t.download.value.cancelling)
  {
    hide Run;
    EveryRunTells(events, false);
    EveryRunIsBooked(events);
    DownloadAsTold(Run(events));
    hide Told, Booked, LedgerOf;
  }

  // ----- Cancelled before it began -----

  /** Asked for, cancelled at once, accepted, and the cancel confirmed: the session can upload again. */
  lemma CancelRound(s: State, file: seq<Byte>)
    requires CanUpload(s, file)
    ensures var id := NextId(s);
      var asked := Next(Next(s, AskUpload(file, false)), Cancel);
      var t := Next(Next(asked, Server(s.generation, UploadReady(id))), Server(s.generation, UploadCancelled(id)));
      t.wire == s.wire + [UploadStart(id, file), UploadCancel(id)] && t.saved == s.saved && CanUpload(t, file)
  {
    hide *;
    var id := NextId(s);
    var a := Next(s, AskUpload(file, false));
    var b := Next(a, Cancel);
    var c := Next(b, Server(s.generation, UploadReady(id)));
    var t := Next(c, Server(s.generation, UploadCancelled(id)));
    CanUploadSafe(s, file);
    StepSafe(s, AskUpload(file, false));
    StepSafe(a, Cancel);
    StepSafe(b, Server(s.generation, UploadReady(id)));
    StepSafe(c, Server(s.generation, UploadCancelled(id)));
    CancelRoundStates(s, file);
    CanUploadAgain(s, t, file);
  }

  lemma CanUploadSafe(s: State, file: seq<Byte>)
    requires CanUpload(s, file)
    ensures TransfersSafe(s)
  {
  }

  lemma CanUploadAgain(s: State, t: State, file: seq<Byte>)
    requires CanUpload(s, file) && TransfersSafe(t) && Freed(s, t)
    ensures CanUpload(t, file)
  {
    hide TransfersSafe;
  }

  lemma CancelRoundStates(s: State, file: seq<Byte>)
    requires CanUpload(s, file)
    ensures var id := NextId(s);
      var asked := Next(Next(s, AskUpload(file, false)), Cancel);
      var t := Next(Next(asked, Server(s.generation, UploadReady(id))), Server(s.generation, UploadCancelled(id)));
      t.wire == s.wire + [UploadStart(id, file), UploadCancel(id)] && t.saved == s.saved && Freed(s, t)
  {
    var id := NextId(s);
    var a := Next(s, AskUpload(file, false));
    UploadBegun(s, file);
    hide CanUpload, Next;
    CancelBeforeAccept(a, id);
    assert s.wire + [UploadStart(id, file)] + [UploadCancel(id)] == s.wire + [UploadStart(id, file), UploadCancel(id)];
  }

  lemma UploadBegun(s: State, file: seq<Byte>)
    requires CanUpload(s, file)
    ensures var u := Upload(NextId(s), file, 0, 0, false, false, false, false, false);
      Next(s, AskUpload(file, false)) == s.(sequence := s.sequence + 1, pending := s.pending[u.id := Transfer],
        upload := Some(u), wire := s.wire + [UploadStart(u.id, file)])
    ensures s.waiting.NotWaiting? && s.socket.Open? && s.download.None?
  {
    hide TransfersSafe;
  }

  lemma CancelBeforeAccept(s: State, id: RequestId)
    requires UploadMatches(s, id) && s.waiting.NotWaiting? && s.socket.Open? && s.download.None?
    requires var u := s.upload.value; u == Upload(id, u.file, 0, 0, false, false, false, false, false)
    ensures var t := Next(Next(Next(s, Cancel), Server(s.generation, UploadReady(id))),
                          Server(s.generation, UploadCancelled(id)));
      t.wire == s.wire + [UploadCancel(id)] && t.saved == s.saved && Freed(s, t)
  {
    var u := s.upload.value.(cancelling := true);
    assert Next(s, Cancel) == s.(upload := Some(u));
    hide DoCancel;
    assert Next(s.(upload := Some(u)), Server(s.generation, UploadReady(id))) ==
      s.(upload := Some(u.(readyForData := true, cancelSent := true)), wire := s.wire + [UploadCancel(id)]);
    hide DoUploadReady;
  }

  // ----- The overwrite question -----

  /** Asked and agreed to is the same as never asked; asked and declined is the same as nothing. */
  lemma QuestionSettled(s: State, file: seq<Byte>)
    ensures var asked := Next(s, AskUpload(file, true));
      && Next(asked, Answer(|s.questions|, true)) == Next(s, AskUpload(file, false))
      && Next(asked, Answer(|s.questions|, false)) == s
  {
    hide BeginUpload;
    var q := Question(s.generation, file);
    assert (s.questions + [q])[..|s.questions|] + (s.questions + [q])[|s.questions| + 1..] == s.questions;
  }

  /** The answer to a question of an earlier session changes nothing, and closes no later question. */
  lemma OldQuestionIsMoot(s: State, k: nat, overwrite: bool)
    requires k < |s.questions| && s.questions[k].generation != s.generation
    ensures Next(s, Answer(k, overwrite)) == s.(questions := s.questions[..k] + s.questions[k + 1..])
  {
  }

  // ----- A new session -----

  /** What a session starts with, whatever went before. */
  lemma NewSession(s: State, cwd: Path)
    requires ValidPath(cwd) && s.waiting.NotWaiting?
    ensures var attached := Next(s, Attach);
      var t := Next(Next(attached, Opened), Server(attached.generation, Ready(Some(cwd))));
      && attached.generation > s.generation && !HasTransfer(t) && t.ready && t.socket.Open? && !t.confirming
      && t.cwd == t.home == cwd && t.history == [cwd] && t.historyIndex == 0 && t.entries == []
      && t.activeList == Some(RequestId(s.generation + 1, s.sequence + 1)) && t.pending.Keys == {t.activeList.value}
      && t.wire == s.wire + (if s.socket.Open? then [Bye] else []) + [Init, ListDir(t.activeList.value, cwd)]
  {
    hide ValidPath;
  }

  /** One server message more: a second `ready`, or one from an earlier session, changes nothing. */
  lemma StaleMessages(s: State, generation: nat, m: Message, cwd: Option<Path>)
    ensures generation != s.generation ==> Next(s, Server(generation, m)) == s
    ensures s.ready ==> Next(s, Server(s.generation, Ready(cwd))) == s
  {
    hide HandleMessage;
    assert HandleMessage(s, Ready(cwd)) == DoReady(s, cwd) by { ReadyIs(s, cwd); }
  }

  lemma ReadyIs(s: State, cwd: Option<Path>)
    ensures HandleMessage(s, Ready(cwd)) == DoReady(s, cwd)
  {
  }

  /** The progress shown never falls, never passes the file's size, and is the greatest reported so far. */
  lemma ProgressShown(s: State, loaded: nat)
    requires s.upload.Some? && s.waiting.NotWaiting? && s.upload.value.id.generation == s.generation
    ensures var u := s.upload.value; var t := Next(s, Server(s.generation, UploadProgress(u.id, Some(loaded))));
      && t.upload.Some?
      && !t.upload.value.awaitingAck
      && t.upload.value.acknowledged ==
           if u.acknowledged >= loaded then Min(|u.file|, u.acknowledged)
           else if loaded <= |u.file| then loaded else |u.file|
  {
    hide SendNextChunk, SendUploadCancel;
    var u0 := s.upload.value;
    var u := u0.(acknowledged := Min(|u0.file|, Max(u0.acknowledged, loaded)), awaitingAck := false);
    ChunkKeepsProgress(s.(acks := s.acks[u0.id := Acks(s, u0.id) + 1]), u);
    CancelKeepsProgress(s.(acks := s.acks[u0.id := Acks(s, u0.id) + 1]), u);
  }

  lemma ChunkKeepsProgress(s: State, u: Upload)
    ensures var t := SendNextChunk(s, u).upload;
      t.Some? && t.value.acknowledged == u.acknowledged && t.value.awaitingAck == u.awaitingAck
  {
    hide Min;
  }

  lemma CancelKeepsProgress(s: State, u: Upload)
    ensures var t := SendUploadCancel(s, u).upload;
      t.Some? && t.value.acknowledged == u.acknowledged && t.value.awaitingAck == u.awaitingAck
  {
  }
}
