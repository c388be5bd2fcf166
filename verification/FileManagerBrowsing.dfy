/** The listing and back-history half of the file manager, over every run. */
module FileManagerBrowsing {
  import opened Wrappers
  import opened FileManagerProtocol

  /** The listing request sent last. */
  function NewestListing(wire: seq<Frame>): Option<RequestId> {
    if wire == [] then None
    else if wire[|wire| - 1].ListDir? then Some(wire[|wire| - 1].id)
    else NewestListing(wire[..|wire| - 1])
  }

  lemma OneMoreFrame(wire: seq<Frame>, f: Frame)
    ensures NewestListing(wire + [f]) == if f.ListDir? then Some(f.id) else NewestListing(wire)
  {
    assert (wire + [f])[..|wire|] == wire;
  }

  /** What browsing depends on: the request still open (if its record is), and the history. */
  datatype Tab = Tab(ready: bool, cwd: Path, history: seq<Path>, index: int, active: Option<RequestId>,
                     open: Option<Operation>, sequence: nat, newest: Option<RequestId>)

  function TabOf(s: State): Tab {
    Tab(s.ready, s.cwd, s.history, s.historyIndex, s.activeList, OpenListing(s.pending, s.activeList), s.sequence,
        NewestListing(s.wire))
  }

  function OpenListing(pending: map<RequestId, Operation>, active: Option<RequestId>): (op: Option<Operation>)
    ensures op.Some? ==> op.value.Listing?
  {
    if active.Some? && active.value in pending && pending[active.value].Listing? then Some(pending[active.value])
      else None
  }

  /** The index stays inside the history, and only the newest request is ever waited for. */
  predicate TabInv(tab: Tab) {
    && 0 <= tab.index < |tab.history|
    && (!tab.ready ==> tab.active.None?)
    && (tab.active.Some? ==> tab.newest == tab.active && tab.active.value.sequence <= tab.sequence)
    && (tab.open.Some? && tab.open.value.Listing? && tab.open.value.mode.Index? ==>
          0 <= tab.open.value.mode.at < |tab.history|)
  }

  /** The shown directory is the current history entry, and will be when the open reply echoes its path. */
  predicate AtHistory(tab: Tab) {
    && TabInv(tab) && tab.cwd == tab.history[tab.index]
    && (tab.open.Some? && tab.open.value.Listing? ==>
          match tab.open.value.mode
          case Index(at) => tab.history[at] == tab.open.value.path
          case Keep => tab.cwd == tab.open.value.path
          case Push => true)
  }

  /** A step of no concern to browsing: at most the open request's record is gone. */
  predicate Undisturbed(s: State, t: State) {
    var a, b := TabOf(s), TabOf(t);
    && a.sequence <= b.sequence && (b.open == a.open || b.open == None)
    && a == b.(sequence := a.sequence, open := a.open)
  }

  /** The invariants of a state, with or without a server that echoes paths. */
  predicate Browses(s: State, echo: bool) {
    TabInv(TabOf(s)) && (echo ==> AtHistory(TabOf(s)))
  }

  /** A listing reply that names a path names the one asked for. */
  predicate Echoes(s: State, e: Event) {
    e.Server? && e.message.ListResult? && e.message.id in s.pending ==>
      s.pending[e.message.id].Listing? && e.message.path.Some? ==>
      e.message.path.value == s.pending[e.message.id].path
  }

  // ----- Listing steps -----

  lemma RequestListBrowses(s: State, path: Path, mode: HistoryMode, echo: bool)
    requires Browses(s, echo)
    requires mode.Index? ==> 0 <= mode.at < |s.history|
    requires echo ==> (mode.Index? ==> s.history[mode.at] == path) && (mode.Keep? ==> s.cwd == path)
    ensures Browses(RequestList(s, path, mode), echo)
  {
    hide ValidPath, NewestListing;
    OneMoreFrame(s.wire, ListDir(NextId(s), path));
  }

  lemma ReadyBrowses(s: State, cwd: Option<Path>, echo: bool)
    requires Browses(s, echo)
    ensures Browses(DoReady(s, cwd), echo)
  {
    hide RequestList, NewestListing;
    var path := if cwd.Some? && ValidPath(cwd.value) then cwd.value else "/";
    if !s.ready {
      RequestListBrowses(s.(ready := true, cwd := path, home := path, history := [path], historyIndex := 0), path,
        Keep, echo);
    }
  }

  lemma ShowListingBrowses(s: State, path: Path, mode: HistoryMode, entries: seq<string>, echo: bool)
    requires TabInv(TabOf(s)) && s.activeList == None
    requires mode.Index? ==> 0 <= mode.at < |s.history|
    requires echo ==>
      AtHistory(TabOf(s)) && (mode.Index? ==> s.history[mode.at] == path) && (mode.Keep? ==> s.cwd == path)
    ensures Browses(ShowListing(s, path, mode, entries), echo)
  {
    hide NewestListing;
  }

  lemma ListResultBrowses(s: State, id: RequestId, path: Option<Path>, entries: Option<seq<string>>, echo: bool)
    requires Browses(s, echo)
    requires echo && id in s.pending && s.pending[id].Listing? && path.Some? ==> path.value == s.pending[id].path
    ensures Browses(DoListResult(s, id, path, entries), echo)
  {
    hide ShowListing, NewestListing, ValidPath;
    if id in s.pending && s.pending[id].Listing? {
      var s1 := s.(pending := s.pending - {id});
      if s.activeList == Some(id) && entries.Some? {
        ShowListingBrowses(s1.(activeList := None), if path.Some? then path.value else s.pending[id].path,
                           s.pending[id].mode, entries.value, echo);
      }
    }
  }

  /** Dropping a request's record. */
  lemma TabWithout(s: State, id: RequestId)
    ensures TabOf(s.(pending := s.pending - {id}))
         == TabOf(s).(open := if s.activeList == Some(id) then None else TabOf(s).open)
  {
    hide NewestListing;
  }

  lemma TabInactive(s: State)
    ensures TabOf(s.(activeList := None)) == TabOf(s).(active := None, open := None)
    ensures TabOf(AbortTransfers(s)) == TabOf(s)
  {
    hide NewestListing;
  }

  lemma ForgettingBrowses(tab: Tab, echo: bool)
    requires TabInv(tab) && (echo ==> AtHistory(tab))
    ensures TabInv(tab.(open := None)) && (echo ==> AtHistory(tab.(open := None)))
    ensures TabInv(tab.(active := None, open := None)) && (echo ==> AtHistory(tab.(active := None, open := None)))
  {
  }

  lemma ErrorBrowses(s: State, of: Option<RequestId>, echo: bool)
    requires Browses(s, echo)
    ensures Browses(DoError(s, of), echo)
  {
    hide TabOf, TabInv, AtHistory, AbortTransfers;
    ForgettingBrowses(TabOf(s), echo);
    if of.Some? {
      var s1 := s.(pending := s.pending - {of.value});
      TabWithout(s, of.value);
      TabInactive(s1);
      TabInactive(s1.(activeList := None));
    }
  }

  lemma BrowseStep(s: State, e: Event, echo: bool)
    requires Browses(s, echo) && (e.Navigate? || e.Back? || e.Refresh?)
    ensures Browses(Next(s, e), echo)
  {
    hide RequestList, NewestListing;
    match e
    case Navigate(path) => RequestListBrowses(s, path, Push, echo);
    case Back =>
      if s.ready && 0 < s.historyIndex <= |s.history| {
        RequestListBrowses(s, s.history[s.historyIndex - 1], Index(s.historyIndex - 1), echo);
      }
    case Refresh => RequestListBrowses(s, s.cwd, Keep, echo);
  }

  // ----- Session steps -----

  lemma SendKeepsNewest(s: State, f: Frame)
    requires !f.ListDir?
    ensures NewestListing(Send(s, f).wire) == NewestListing(s.wire) && Send(s, f).(wire := s.wire) == s
  {
    OneMoreFrame(s.wire, f);
  }

  lemma SessionStep(s: State, e: Event, echo: bool)
    requires Browses(s, echo) && (e.Attach? || e.Opened? || e.SocketClosing? || e.Closed? || e.Reset?)
    ensures Browses(Next(s, e), echo)
  {
    hide NewestListing, Send;
    SendKeepsNewest(s, Bye);
    SendKeepsNewest(s.(socket := Open), Init);
  }

  // ----- Transfers do not disturb browsing -----

  lemma UndisturbedBrowses(s: State, t: State, echo: bool)
    requires Browses(s, echo) && Undisturbed(s, t)
    ensures Browses(t, echo)
  {
  }

  lemma CreateRequestUndisturbed(s: State, op: Operation)
    requires TabInv(TabOf(s))
    ensures Undisturbed(s, CreateRequest(s, op))
  {
    hide NewestListing;
  }

  lemma BeginUploadUndisturbed(s: State, generation: nat, file: seq<Byte>)
    requires TabInv(TabOf(s))
    ensures Undisturbed(s, BeginUpload(s, generation, file))
  {
    hide NewestListing, Send;
    var u := Upload(NextId(s), file, 0, 0, false, false, false, false, false);
    CreateRequestUndisturbed(s, Transfer);
    SendKeepsNewest(CreateRequest(s, Transfer).(upload := Some(u)), UploadStart(NextId(s), file));
  }

  lemma AskDownloadUndisturbed(s: State, expected: Option<nat>)
    requires TabInv(TabOf(s))
    ensures Undisturbed(s, DoAskDownload(s, expected))
  {
    hide NewestListing, Send;
    var d := Download(NextId(s), expected, [], 0, false, false, false);
    CreateRequestUndisturbed(s, Transfer);
    SendKeepsNewest(CreateRequest(s, Transfer).(download := Some(d)), DownloadStart(NextId(s)));
  }

  lemma AnswerUndisturbed(s: State, k: nat, overwrite: bool)
    requires TabInv(TabOf(s))
    ensures Undisturbed(s, DoAnswer(s, k, overwrite))
  {
    hide NewestListing, BeginUpload;
    if k < |s.questions| {
      var q := s.questions[k];
      var s1 := s.(questions := s.questions[..k] + s.questions[k + 1..]);
      var s2 := if q.generation == s.generation then s1.(confirming := false) else s1;
      BeginUploadUndisturbed(s2, q.generation, q.file);
    }
  }

  lemma SendNextChunkUndisturbed(s: State, u: Upload)
    ensures Undisturbed(s, SendNextChunk(s, u)) && Undisturbed(s, SendUploadCancel(s, u))
  {
    hide NewestListing, Send;
    SendKeepsNewest(s.(upload := Some(u.(endSent := true))), UploadEnd(u.id));
    SendKeepsNewest(s.(upload := Some(u.(cancelSent := true))), UploadCancel(u.id));
  }

  lemma UploadMessageUndisturbed(s: State, id: RequestId, loaded: Option<nat>)
    ensures Undisturbed(s, DoUploadReady(s, id)) && Undisturbed(s, DoUploadProgress(s, id, loaded))
  {
    hide NewestListing, SendNextChunk, SendUploadCancel;
    if s.upload.Some? {
      var u0 := s.upload.value;
      SendNextChunkUndisturbed(s, u0.(readyForData := true));
      var loadedNow := if loaded.Some? then loaded.value else u0.sent;
      SendNextChunkUndisturbed(s.(acks := s.acks[id := Acks(s, id) + 1]),
        u0.(acknowledged := Min(|u0.file|, Max(u0.acknowledged, loadedNow)), awaitingAck := false));
    }
  }

  lemma SendDownloadCancelUndisturbed(s: State, d: Download)
    ensures Undisturbed(s, SendDownloadCancel(s, d))
  {
    hide NewestListing, Send;
    SendKeepsNewest(s.(download := Some(d.(cancelSent := true))), DownloadCancel(d.id));
  }

  lemma CancelUndisturbed(s: State)
    ensures Undisturbed(s, DoCancel(s))
  {
    hide NewestListing, SendUploadCancel, SendDownloadCancel;
    if s.upload.Some? {
      SendNextChunkUndisturbed(s, s.upload.value.(cancelling := true));
    } else if s.download.Some? {
      SendDownloadCancelUndisturbed(s, s.download.value.(cancelling := true));
    }
  }

  lemma AcceptBinaryUndisturbed(s: State, id: RequestId, data: seq<Byte>)
    ensures Undisturbed(s, AcceptBinary(s, id, data))
  {
    hide NewestListing, SendDownloadCancel;
    if s.download.Some? { SendDownloadCancelUndisturbed(s, s.download.value.(cancelling := true)); }
  }

  lemma ReadFinishedUndisturbed(s: State)
    ensures Undisturbed(s, DoReadFinished(s))
  {
    hide NewestListing, AcceptBinary, Send;
    var s1 := s.(waiting := NotWaiting);
    match s.waiting
    case NotWaiting =>
    case ReadingSlice(id, end, slice) => SendKeepsNewest(s1, Data(slice));
    case ReadingBlob(id, data) => AcceptBinaryUndisturbed(s1, id, data);
  }

  lemma DownloadMessageUndisturbed(s: State, id: RequestId, size: Option<nat>, data: seq<Byte>, blob: bool)
    ensures Undisturbed(s, DoDownloadStarted(s, id, size)) && Undisturbed(s, DoBinary(s, data, blob))
  {
    hide NewestListing, SendDownloadCancel, AcceptBinary;
    if s.download.Some? {
      var d := s.download.value.(started := true, expected := size);
      SendDownloadCancelUndisturbed(s, d);
      SendDownloadCancelUndisturbed(s, d.(cancelling := true));
      AcceptBinaryUndisturbed(s, s.download.value.id, data);
    }
  }

  lemma EndOfTransferUndisturbed(s: State, id: RequestId, size: Option<nat>, upload: bool)
    ensures Undisturbed(s, DoDownloadDone(s, id, size)) && Undisturbed(s, DoCancelled(s, id, upload))
  {
    var s1 := AbortTransfers(s.(pending := s.pending - {id}));
    TabWithout(s, id);
    TabInactive(s.(pending := s.pending - {id}));
    assert Undisturbed(s, s1);
    hide TabOf, Flatten, AbortTransfers;
    SavingUndisturbed(s1);
  }

  lemma SavingUndisturbed(s: State)
    ensures forall saved :: TabOf(s.(saved := saved)) == TabOf(s)
  {
    hide NewestListing;
  }

  lemma RefreshMessageBrowses(s: State, id: RequestId, echo: bool)
    requires Browses(s, echo)
    ensures Browses(DoUploadComplete(s, id), echo) && Browses(DoMutationResult(s, id), echo)
  {
    hide NewestListing, RequestList;
    RequestListBrowses(s.(pending := s.pending - {id}, upload := None), s.cwd, Keep, echo);
    RequestListBrowses(s.(pending := s.pending - {id}), s.cwd, Keep, echo);
  }

  // ----- All steps -----

  lemma MessageBrowses(s: State, m: Message, echo: bool)
    requires Browses(s, echo) && (echo ==> Echoes(s, Server(s.generation, m)))
    ensures Browses(HandleMessage(s, m), echo)
  {
    hide Browses, DoReady, DoListResult, DoUploadReady, DoUploadProgress, DoBinary, DoDownloadStarted, DoDownloadDone,
         DoUploadComplete, DoMutationResult, DoCancelled, DoError, Undisturbed;
    match m
    case Ready(cwd) => ReadyBrowses(s, cwd, echo);
    case ListResult(id, path, entries) => ListResultBrowses(s, id, path, entries, echo);
    case UploadReady(id) => UploadMessageUndisturbed(s, id, None); UndisturbedBrowses(s, HandleMessage(s, m), echo);
    case UploadProgress(id, loaded) => UploadMessageUndisturbed(s, id, loaded);
      UndisturbedBrowses(s, HandleMessage(s, m), echo);
    case DownloadStarted(id, size) => DownloadMessageUndisturbed(s, id, size, [], false);
      UndisturbedBrowses(s, HandleMessage(s, m), echo);
    case Binary(data, blob) => DownloadMessageUndisturbed(s, NextId(s), None, data, blob);
      UndisturbedBrowses(s, HandleMessage(s, m), echo);
    case DownloadDone(id, size) => EndOfTransferUndisturbed(s, id, size, true);
      UndisturbedBrowses(s, HandleMessage(s, m), echo);
    case UploadCancelled(id) => EndOfTransferUndisturbed(s, id, None, true);
      UndisturbedBrowses(s, HandleMessage(s, m), echo);
    case DownloadCancelled(id) => EndOfTransferUndisturbed(s, id, None, false);
      UndisturbedBrowses(s, HandleMessage(s, m), echo);
    case UploadComplete(id) => RefreshMessageBrowses(s, id, echo);
    case MutationResult(id) => RefreshMessageBrowses(s, id, echo);
    case Error(of) => ErrorBrowses(s, of, echo);
    case ClosedByServer => SessionStep(s, SocketClosing, echo);
    case Other =>
  }

  lemma StepBrowses(s: State, e: Event, echo: bool)
    requires Browses(s, echo) && (echo ==> Echoes(s, e))
    ensures Browses(Next(s, e), echo)
  {
    hide TabInv, AtHistory, HandleMessage, BeginUpload, DoAnswer, DoAskDownload, DoCancel, DoReset, DoAttach, DoOpened,
         DoClosed, DoReadFinished, RequestList, DoBack, DoRefresh, Send, Undisturbed, TabOf;
    match e
    case AskUpload(file, present) =>
      BeginUploadUndisturbed(s, s.generation, file);
      UndisturbedBrowses(s, BeginUpload(s, s.generation, file), echo);
      SameTab(s, s.(confirming := true, questions := s.questions + [Question(s.generation, file)]));
    case Answer(k, overwrite) => AnswerUndisturbed(s, k, overwrite); UndisturbedBrowses(s, Next(s, e), echo);
    case AskDownload(expected) => AskDownloadUndisturbed(s, expected); UndisturbedBrowses(s, Next(s, e), echo);
    case Cancel => CancelUndisturbed(s); UndisturbedBrowses(s, Next(s, e), echo);
    case AskMutation => MutationUndisturbed(s); UndisturbedBrowses(s, Next(s, e), echo);
    case ReadFinished => ReadFinishedUndisturbed(s); UndisturbedBrowses(s, Next(s, e), echo);
    case Server(_, m) => MessageBrowses(s, m, echo);
    case Navigate(_) => BrowseStep(s, e, echo);
    case Back => BrowseStep(s, e, echo);
    case Refresh => BrowseStep(s, e, echo);
    case Attach => SessionStep(s, e, echo);
    case Opened => SessionStep(s, e, echo);
    case SocketClosing => SessionStep(s, e, echo);
    case Closed(_) => SessionStep(s, e, echo);
    case Reset => SessionStep(s, e, echo);
  }

  lemma MutationUndisturbed(s: State)
    requires TabInv(TabOf(s))
    ensures Undisturbed(s, Send(CreateRequest(s, Mutation), Mutate(NextId(s))))
  {
    hide NewestListing, Send;
    CreateRequestUndisturbed(s, Mutation);
    SendKeepsNewest(CreateRequest(s, Mutation), Mutate(NextId(s)));
  }

  lemma SameTab(s: State, t: State)
    requires t == s.(confirming := t.confirming, questions := t.questions)
    ensures TabOf(t) == TabOf(s)
  {
  }

  /** The index is always inside the history, whatever the server replies. */
  lemma {:induction false} HistoryIndexInBounds(events: seq<Event>)
    ensures TabInv(TabOf(Run(events)))
    ensures 0 <= Run(events).historyIndex < |Run(events).history|
  {
    hide Next;
    if events != [] {
      HistoryIndexInBounds(events[..|events| - 1]);
      StepBrowses(Run(events[..|events| - 1]), events[|events| - 1], false);
    }
  }

  /** Every event of the run is answered with the path it asked for. */
  predicate EchoingServer(events: seq<Event>) {
    forall i :: 0 <= i < |events| ==> Echoes(Run(events[..i]), events[i])
  }

  /** With a server that echoes paths, the shown directory is always the current history entry. */
  lemma {:induction false} ShownIsCurrentEntry(events: seq<Event>)
    requires EchoingServer(events)
    ensures AtHistory(TabOf(Run(events)))
    ensures Run(events).cwd == Run(events).history[Run(events).historyIndex]
  {
    hide Next, Echoes;
    if events != [] {
      var n := |events| - 1;
      var before := events[..n];
      assert forall i :: 0 <= i < n ==> before[..i] == events[..i];
      ShownIsCurrentEntry(before);
      StepBrowses(Run(before), events[n], true);
    }
  }

  /** A reply changes what is shown only if it answers the newest listing request ever sent. */
  lemma OnlyNewestReplyApplies(events: seq<Event>, generation: nat, id: RequestId, path: Option<Path>,
      entries: Option<seq<string>>)
    ensures var s := Run(events);
            var t := Next(s, Server(generation, ListResult(id, path, entries)));
            (t.cwd, t.history, t.historyIndex, t.entries) != (s.cwd, s.history, s.historyIndex, s.entries) ==>
              && NewestListing(s.wire) == Some(id) && s.activeList == Some(id) && t.activeList == None
  {
    hide Run;
    HistoryIndexInBounds(events);
  }

  /** An idle session that can list directories. */
  predicate CanList(s: State) { s.ready && s.socket.Open? && s.waiting.NotWaiting? }

  /**
   A listing asked for and answered.  A usable reply is shown: a move cuts the history after the current
   entry and adds the directory unless it is that entry, going back sets the index, and a refresh does
   neither.  Any other reply leaves the view as it was.
   */
  lemma AskAndReply(s: State, path: Path, mode: HistoryMode, reply: Option<Path>, entries: Option<seq<string>>)
    requires CanList(s) && ValidPath(path) && 0 <= s.historyIndex < |s.history|
    ensures var asked := RequestList(s, path, mode);
            var t := Next(asked, Server(s.generation, ListResult(NextId(s), reply, entries)));
            var shown := if reply.Some? then reply.value else path;
            && CanList(t) && t.generation == s.generation && t.activeList == None && NextId(s) !in t.pending
            && if !ValidPath(shown) || entries.None? then
                 (t.cwd, t.history, t.historyIndex, t.entries) == (s.cwd, s.history, s.historyIndex, s.entries)
               else
                 && t.cwd == shown && t.entries == entries.value
                 && match mode
                    case Keep => t.history == s.history && t.historyIndex == s.historyIndex
                    case Index(at) => t.history == s.history && t.historyIndex == at
                    case Push =>
                      if s.history[s.historyIndex] == shown then
                        t.history == s.history && t.historyIndex == s.historyIndex
                      else
                        && t.history == s.history[..s.historyIndex + 1] + [shown]
                        && t.historyIndex == s.historyIndex + 1
  {
    hide ValidPath, RequestList;
    Asked(s, path, mode);
  }

  lemma Asked(s: State, path: Path, mode: HistoryMode)
    requires CanList(s) && ValidPath(path)
    ensures var t, id := RequestList(s, path, mode), NextId(s);
            && id in t.pending && t.pending[id] == Listing(path, mode) && t.activeList == Some(id)
            && t == s.(pending := t.pending, activeList := t.activeList, sequence := t.sequence, wire := t.wire)
  {
    hide ValidPath;
  }

  /** Going back after a move shows the directory left, at the history position it had. */
  lemma BackReturns(s: State, path: Path, there: seq<string>, here: seq<string>)
    requires AtHistory(TabOf(s)) && CanList(s) && ValidPath(path) && ValidPath(s.cwd) && path != s.cwd
    ensures var moved := Next(Next(s, Navigate(path)),
      Server(s.generation, ListResult(NextId(s), Some(path), Some(there))));
            var back := Next(Next(moved, Back),
              Server(s.generation, ListResult(NextId(moved), Some(s.cwd), Some(here))));
            && moved.cwd == path && moved.historyIndex == s.historyIndex + 1
            && back.cwd == s.cwd && back.historyIndex == s.historyIndex && back.entries == here
            && back.history == s.history[..s.historyIndex + 1] + [path]
  {
    hide RequestList, ValidPath, HandleMessage, NewestListing;
    var moved := Next(Next(s, Navigate(path)), Server(s.generation, ListResult(NextId(s), Some(path), Some(there))));
    AskAndReply(s, path, Push, Some(path), Some(there));
    assert moved.history[moved.historyIndex - 1] == s.cwd;
    AskAndReply(moved, s.cwd, Index(s.historyIndex), Some(s.cwd), Some(here));
  }
}
