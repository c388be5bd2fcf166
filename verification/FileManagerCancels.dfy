/** What becomes of a cancel, over every run: it reaches the server, once, and stops the upload for good. */
module FileManagerCancels {
  import opened Wrappers
  import opened FileManagerProtocol
  import opened FileManagerSafety

  // ----- Ends and cancels on the wire -----

  /** How often a frame was sent. */
  function Sent(wire: seq<Frame>, f: Frame): nat { multiset(wire)[f] }

  function Once(b: bool): nat { if b then 1 else 0 }

  predicate Neutral(f: Frame) { !f.UploadEnd? && !f.UploadCancel? && !f.DownloadCancel? }

  /** Ends and cancels are sent once at most, and only for requests already made. */
  ghost predicate SentOnce(wire: seq<Frame>, sequence: nat) {
    forall f :: !Neutral(f) ==> Sent(wire, f) <= Once(f.id.sequence <= sequence)
  }

  /** The records agree with the wire, and a cancel that can be sent has been sent. */
  predicate UploadTold(wire: seq<Frame>, socket: Socket, sequence: nat, u: Upload) {
    && u.id.sequence <= sequence && !socket.Connecting?
    && Sent(wire, UploadEnd(u.id)) == Once(u.endSent) && Sent(wire, UploadCancel(u.id)) == Once(u.cancelSent)
    && (u.cancelSent ==> u.cancelling)
    && (u.cancelling && u.readyForData && socket.Open? ==> u.cancelSent)
  }

  predicate DownloadTold(wire: seq<Frame>, socket: Socket, sequence: nat, d: Download, opensFirst: bool) {
    && d.id.sequence <= sequence && Sent(wire, DownloadCancel(d.id)) == Once(d.cancelSent)
    && (d.cancelSent ==> d.cancelling)
    && (opensFirst ==> !socket.Connecting? && (d.cancelling && d.started && socket.Open? ==> d.cancelSent))
  }

  /** Nothing of an upload is read or sent before the server accepted it. */
  predicate ReadAfterAccept(waiting: Waiting, sequence: nat, upload: Option<Upload>) {
    && (waiting.ReadingSlice? ==> waiting.upload.sequence <= sequence)
    && (upload.Some? && !upload.value.readyForData ==>
          upload.value.sent == 0 && !(waiting.ReadingSlice? && waiting.upload == upload.value.id))
  }

  /** A browser delivers no message before its socket opens, so no session is ready before. */
  ghost predicate Told(s: State, opensFirst: bool) {
    && SentOnce(s.wire, s.sequence) && ReadAfterAccept(s.waiting, s.sequence, s.upload)
    && (s.upload.Some? ==> UploadTold(s.wire, s.socket, s.sequence, s.upload.value))
    && (s.download.Some? ==> DownloadTold(s.wire, s.socket, s.sequence, s.download.value, opensFirst))
    && (opensFirst && s.ready ==> !s.socket.Connecting?)
  }

  predicate SendsNeutral(before: seq<Frame>, after: seq<Frame>) {
    after == before || (|after| == |before| + 1 && after[..|before|] == before && Neutral(after[|before|]))
  }

  /** A frame that concerns no transfer. */
  predicate Plain(f: Frame) { f.Init? || f.Bye? || f.ListDir? || f.Mutate? }

  predicate SendsPlain(before: seq<Frame>, after: seq<Frame>) {
    after == before || (|after| == |before| + 1 && after[..|before|] == before && Plain(after[|before|]))
  }

  lemma SendIsPlain(s: State, f: Frame)
    requires Plain(f)
    ensures SendsPlain(s.wire, Send(s, f).wire) && Send(s, f).(wire := s.wire) == s
  {
  }

  lemma NeutralFrame(before: seq<Frame>, after: seq<Frame>, f: Frame)
    requires SendsNeutral(before, after) && !Neutral(f)
    ensures Sent(after, f) == Sent(before, f)
  {
    if after != before { assert after == before + [after[|before|]]; }
  }

  lemma OneMoreSent(wire: seq<Frame>, f: Frame, g: Frame)
    ensures Sent(wire + [f], g) == Sent(wire, g) + Once(f == g)
  {
  }

  lemma NeutralKeepsOnce(before: seq<Frame>, after: seq<Frame>, sequence: nat, now: nat)
    requires SentOnce(before, sequence) && SendsNeutral(before, after) && sequence <= now
    ensures SentOnce(after, now)
  {
    hide Sent, SendsNeutral;
    forall f | !Neutral(f) ensures Sent(after, f) <= Once(f.id.sequence <= now) { NeutralFrame(before, after, f); }
  }

  /** A step that keeps or drops each transfer, and sends nothing that ends or cancels one. */
  predicate Aside(s: State, t: State) {
    && s.sequence <= t.sequence && SendsPlain(s.wire, t.wire) && t.waiting == s.waiting
    && (t.upload == s.upload || t.upload == None) && (t.download == s.download || t.download == None)
    && (t.socket == s.socket || t.socket == Closing || (t.upload == None && t.download == None))
    && (t.ready && t.socket.Connecting? ==> s.ready && s.socket.Connecting?)
  }

  lemma AsideKeeps(s: State, t: State, opensFirst: bool)
    requires Told(s, opensFirst) && Aside(s, t)
    ensures Told(t, opensFirst)
  {
    hide Sent, Neutral, SendsNeutral, SendsPlain, SentOnce;
    PlainIsNeutral(s.wire, t.wire);
    NeutralKeepsOnce(s.wire, t.wire, s.sequence, t.sequence);
    if t.upload.Some? {
      NeutralFrame(s.wire, t.wire, UploadEnd(t.upload.value.id)) by { Loud(t.upload.value.id); }
      NeutralFrame(s.wire, t.wire, UploadCancel(t.upload.value.id)) by { Loud(t.upload.value.id); }
    }
    if t.download.Some? {
      NeutralFrame(s.wire, t.wire, DownloadCancel(t.download.value.id)) by { Loud(t.download.value.id); }
    }
  }

  lemma PlainIsNeutral(before: seq<Frame>, after: seq<Frame>)
    requires SendsPlain(before, after)
    ensures SendsNeutral(before, after)
  {
  }

  lemma Loud(id: RequestId)
    ensures !Neutral(UploadEnd(id)) && !Neutral(UploadCancel(id)) && !Neutral(DownloadCancel(id))
  {
  }

  // ----- Uploads -----

  lemma BeginUploadTold(s: State, generation: nat, file: seq<Byte>, opensFirst: bool)
    requires Told(s, opensFirst)
    ensures Told(BeginUpload(s, generation, file), opensFirst)
  {
    hide Sent, SentOnce;
    var t := BeginUpload(s, generation, file);
    if t != s {
      var f := UploadStart(NextId(s), file);
      NothingSentYet(s.wire, s.sequence, NextId(s));
      NeutralKeepsOnce(s.wire, t.wire, s.sequence, t.sequence);
      OneMoreSent(s.wire, f, UploadEnd(NextId(s)));
      OneMoreSent(s.wire, f, UploadCancel(NextId(s)));
    }
  }

  lemma NothingSentYet(wire: seq<Frame>, sequence: nat, id: RequestId)
    requires SentOnce(wire, sequence) && sequence < id.sequence
    ensures Sent(wire, UploadEnd(id)) == Sent(wire, UploadCancel(id)) == Sent(wire, DownloadCancel(id)) == 0
  {
    hide Sent;
  }

  /** Sending an end or a cancel that was not sent before. */
  lemma SentNow(wire: seq<Frame>, sequence: nat, f: Frame)
    requires SentOnce(wire, sequence) && !Neutral(f) && f.id.sequence <= sequence && Sent(wire, f) == 0
    ensures SentOnce(wire + [f], sequence)
  {
    hide Sent;
    forall g | !Neutral(g) ensures Sent(wire + [f], g) <= Once(g.id.sequence <= sequence) { OneMoreSent(wire, f, g); }
  }

  /** What an upload must satisfy before `SendUploadCancel` or `SendNextChunk` goes on with it. */
  ghost predicate UploadHeld(s: State, u: Upload) {
    && SentOnce(s.wire, s.sequence) && s.download.None? && ReadAfterAccept(s.waiting, s.sequence, Some(u))
    && u.id.sequence <= s.sequence && !s.socket.Connecting?
    && Sent(s.wire, UploadEnd(u.id)) == Once(u.endSent) && Sent(s.wire, UploadCancel(u.id)) == Once(u.cancelSent)
    && (u.cancelSent ==> u.cancelling)
  }

  lemma SendUploadCancelTold(s: State, u: Upload, opensFirst: bool)
    requires UploadHeld(s, u) && u.cancelling
    ensures Told(SendUploadCancel(s, u), opensFirst)
  {
    hide Sent, SentOnce;
    if !(u.cancelSent || !u.readyForData || !s.socket.Open?) {
      SentNow(s.wire, s.sequence, UploadCancel(u.id));
      OneMoreSent(s.wire, UploadCancel(u.id), UploadEnd(u.id));
      OneMoreSent(s.wire, UploadCancel(u.id), UploadCancel(u.id));
    }
  }

  lemma SendNextChunkTold(s: State, u: Upload, opensFirst: bool)
    requires UploadHeld(s, u) && !u.cancelling
    ensures Told(SendNextChunk(s, u), opensFirst)
  {
    hide Sent, SentOnce;
    if s.socket.Open? && !u.endSent {
      SentNow(s.wire, s.sequence, UploadEnd(u.id));
      OneMoreSent(s.wire, UploadEnd(u.id), UploadEnd(u.id));
      OneMoreSent(s.wire, UploadEnd(u.id), UploadCancel(u.id));
    }
  }

  lemma UploadMessageTold(s: State, id: RequestId, loaded: Option<nat>, opensFirst: bool)
    requires Told(s, opensFirst) && !(s.upload.Some? && s.download.Some?)
    ensures Told(DoUploadReady(s, id), opensFirst) && Told(DoUploadProgress(s, id, loaded), opensFirst)
  {
    hide Sent, SentOnce, SendUploadCancel, SendNextChunk;
    if s.upload.Some? {
      var u0 := s.upload.value;
      UploadGoesOn(s, u0.(readyForData := true), opensFirst);
      var loadedNow := if loaded.Some? then loaded.value else u0.sent;
      UploadGoesOn(s.(acks := s.acks[id := Acks(s, id) + 1]),
        u0.(acknowledged := Min(|u0.file|, Max(u0.acknowledged, loadedNow)), awaitingAck := false), opensFirst);
    }
  }

  lemma UploadGoesOn(s: State, u: Upload, opensFirst: bool)
    requires UploadHeld(s, u)
    ensures u.cancelling ==> Told(SendUploadCancel(s, u), opensFirst)
    ensures !u.cancelling ==> Told(SendNextChunk(s, u), opensFirst)
  {
    hide *;
    if u.cancelling { SendUploadCancelTold(s, u, opensFirst); } else { SendNextChunkTold(s, u, opensFirst); }
  }

  // ----- Downloads -----

  ghost predicate DownloadHeld(s: State, d: Download, opensFirst: bool) {
    && SentOnce(s.wire, s.sequence) && s.upload.None? && ReadAfterAccept(s.waiting, s.sequence, None)
    && d.id.sequence <= s.sequence && Sent(s.wire, DownloadCancel(d.id)) == Once(d.cancelSent)
    && (d.cancelSent ==> d.cancelling)
    && (opensFirst ==> !s.socket.Connecting?)
  }

  lemma SendDownloadCancelTold(s: State, d: Download, opensFirst: bool)
    requires DownloadHeld(s, d, opensFirst) && d.cancelling
    ensures Told(SendDownloadCancel(s, d), opensFirst)
  {
    hide Sent, SentOnce;
    if !(d.cancelSent || !d.started || !s.socket.Open?) {
      SentNow(s.wire, s.sequence, DownloadCancel(d.id));
      OneMoreSent(s.wire, DownloadCancel(d.id), DownloadCancel(d.id));
    }
  }

  lemma AskDownloadTold(s: State, expected: Option<nat>, opensFirst: bool)
    requires Told(s, opensFirst)
    ensures Told(DoAskDownload(s, expected), opensFirst)
  {
    hide Sent, SentOnce;
    var t := DoAskDownload(s, expected);
    if t != s {
      var f := DownloadStart(NextId(s));
      NothingSentYet(s.wire, s.sequence, NextId(s));
      NeutralKeepsOnce(s.wire, t.wire, s.sequence, t.sequence);
      OneMoreSent(s.wire, f, DownloadCancel(NextId(s)));
    }
  }

  lemma CancelTold(s: State, opensFirst: bool)
    requires Told(s, opensFirst) && !(s.upload.Some? && s.download.Some?)
    ensures Told(DoCancel(s), opensFirst)
  {
    hide Sent, SentOnce, SendUploadCancel, SendDownloadCancel;
    if s.upload.Some? && !s.upload.value.cancelling {
      SendUploadCancelTold(s, s.upload.value.(cancelling := true), opensFirst);
    } else if s.upload.None? && s.download.Some? && !s.download.value.cancelling {
      SendDownloadCancelTold(s, s.download.value.(cancelling := true), opensFirst);
    }
  }

  lemma AcceptBinaryTold(s: State, id: RequestId, data: seq<Byte>, opensFirst: bool)
    requires Told(s, opensFirst) && !(s.upload.Some? && s.download.Some?)
    ensures Told(AcceptBinary(s, id, data), opensFirst)
  {
    hide Sent, SentOnce, SendDownloadCancel;
    if s.download.Some? && !s.download.value.cancelling {
      SendDownloadCancelTold(s, s.download.value.(cancelling := true), opensFirst);
    }
  }

  lemma DownloadStartedTold(s: State, id: RequestId, size: Option<nat>, opensFirst: bool)
    requires Told(s, opensFirst) && !(s.upload.Some? && s.download.Some?)
    ensures Told(DoDownloadStarted(s, id, size), opensFirst)
  {
    hide Sent, SentOnce, SendDownloadCancel;
    if s.download.Some? {
      SendDownloadCancelTold(s, s.download.value.(started := true, expected := size, cancelling := true), opensFirst);
    }
  }

  lemma ReadFinishedTold(s: State, opensFirst: bool)
    requires Told(s, opensFirst) && !(s.upload.Some? && s.download.Some?)
    ensures Told(DoReadFinished(s), opensFirst)
  {
    hide AcceptBinary, Sent, SentOnce, SliceRead;
    match s.waiting
    case NotWaiting =>
    case ReadingSlice(id, end, slice) => SliceReadTold(s.(waiting := NotWaiting), id, end, slice, opensFirst);
    case ReadingBlob(id, data) => AcceptBinaryTold(s.(waiting := NotWaiting), id, data, opensFirst);
  }

  lemma SliceReadTold(s: State, id: RequestId, end: nat, slice: seq<Byte>, opensFirst: bool)
    requires Told(s, opensFirst) && !(s.upload.Some? && s.download.Some?)
    requires s.upload.Some? && s.upload.value.id == id ==> s.upload.value.readyForData
    ensures Told(SliceRead(s, id, end, slice), opensFirst)
  {
    hide Sent, SentOnce;
    var f := Data(slice);
    NeutralKeepsOnce(s.wire, s.wire + [f], s.sequence, s.sequence);
    if s.upload.Some? {
      OneMoreSent(s.wire, f, UploadEnd(s.upload.value.id));
      OneMoreSent(s.wire, f, UploadCancel(s.upload.value.id));
    }
  }

  // ----- Steps that leave the transfers alone or drop them -----

  lemma RequestListAside(s: State, path: Path, mode: HistoryMode)
    ensures Aside(s, RequestList(s, path, mode))
  {
    hide SendsPlain, Send, ValidPath;
    var s1 := if s.activeList.Some? then s.(pending := s.pending - {s.activeList.value}) else s;
    var s2 := CreateRequest(s1, Listing(path, mode)).(activeList := Some(NextId(s)));
    SendIsPlain(s2, ListDir(NextId(s), path));
    Unsent(s.wire);
  }

  lemma Unsent(wire: seq<Frame>)
    ensures SendsPlain(wire, wire)
  {
  }

  lemma ShowListingAside(s: State, path: Path, mode: HistoryMode, entries: seq<string>)
    ensures Aside(s, ShowListing(s, path, mode, entries))
  {
  }

  lemma ListResultAside(s: State, id: RequestId, path: Option<Path>, entries: Option<seq<string>>)
    ensures Aside(s, DoListResult(s, id, path, entries))
  {
    hide SendsPlain, ValidPath, ShowListing;
    Unsent(s.wire);
    if id in s.pending && s.pending[id].Listing? && entries.Some? {
      var s2 := s.(pending := s.pending - {id}).(activeList := None);
      ShowListingAside(s2, if path.Some? then path.value else s.pending[id].path, s.pending[id].mode, entries.value);
    }
  }

  lemma EndingAside(s: State, id: RequestId, size: Option<nat>, upload: bool)
    ensures Aside(s, DoDownloadDone(s, id, size)) && Aside(s, DoCancelled(s, id, upload))
  {
    hide SendsPlain, Flatten;
    Unsent(s.wire);
  }

  lemma ErrorAside(s: State, of: Option<RequestId>)
    ensures Aside(s, DoError(s, of))
  {
    hide SendsPlain;
    Unsent(s.wire);
  }

  lemma RefreshAside(s: State, id: RequestId)
    ensures Aside(s, DoRefresh(s)) && Aside(s, DoUploadComplete(s, id)) && Aside(s, DoMutationResult(s, id))
  {
    hide SendsPlain, RequestList;
    Unsent(s.wire);
    RequestListAside(s, s.cwd, Keep);
    RequestListAside(s.(pending := s.pending - {id}, upload := None), s.cwd, Keep);
    RequestListAside(s.(pending := s.pending - {id}), s.cwd, Keep);
  }

  lemma BrowseAside(s: State, e: Event)
    requires e.Navigate? || e.Back? || e.Refresh? || e.AskMutation?
    ensures Aside(s, Next(s, e))
  {
    hide SendsPlain, RequestList, DoRefresh, Send;
    Unsent(s.wire);
    match e
    case Navigate(path) => RequestListAside(s, path, Push);
    case Back =>
      if s.ready && 0 < s.historyIndex <= |s.history| {
        RequestListAside(s, s.history[s.historyIndex - 1], Index(s.historyIndex - 1));
      }
    case Refresh => RefreshAside(s, NextId(s));
    case AskMutation => SendIsPlain(CreateRequest(s, Mutation), Mutate(NextId(s)));
  }

  lemma SessionAside(s: State, shown: bool)
    ensures Aside(s, DoReset(s)) && Aside(s, DoAttach(s)) && Aside(s, DoClosed(s, shown))
    ensures Aside(s, s.(socket := Closing))
  {
    hide SendsPlain, Send;
    Unsent(s.wire);
    SendIsPlain(s, Bye);
  }

  /** A socket that opens has no upload waiting, nor a download in a session that was ready only after opening. */
  lemma OpenedTold(s: State, opensFirst: bool)
    requires Told(s, opensFirst)
    ensures Told(DoOpened(s), opensFirst)
  {
    hide Sent, SentOnce;
    NeutralKeepsOnce(s.wire, s.wire + [Init], s.sequence, s.sequence);
    if s.download.Some? { OneMoreSent(s.wire, Init, DownloadCancel(s.download.value.id)); }
  }

  lemma ReadyTold(s: State, cwd: Option<Path>, opensFirst: bool)
    requires Told(s, opensFirst) && (opensFirst ==> !s.socket.Connecting?)
    ensures Told(DoReady(s, cwd), opensFirst)
  {
    hide Sent, SentOnce, RequestList, Aside;
    var path := if cwd.Some? && ValidPath(cwd.value) then cwd.value else "/";
    var t := s.(ready := true, cwd := path, home := path, history := [path], historyIndex := 0);
    RequestListAside(t, path, Keep);
    AsideKeeps(t, RequestList(t, path, Keep), opensFirst);
  }

  lemma AnswerTold(s: State, k: nat, overwrite: bool, opensFirst: bool)
    requires Told(s, opensFirst)
    ensures Told(DoAnswer(s, k, overwrite), opensFirst)
  {
    hide Sent, SentOnce, BeginUpload;
    if k < |s.questions| {
      var q := s.questions[k];
      var s1 := s.(questions := s.questions[..k] + s.questions[k + 1..]);
      BeginUploadTold(if q.generation == s.generation then s1.(confirming := false) else s1, q.generation, q.file,
        opensFirst);
    }
  }

  lemma AskUploadTold(s: State, file: seq<Byte>, present: bool, opensFirst: bool)
    requires Told(s, opensFirst)
    ensures Told(DoAskUpload(s, file, present), opensFirst)
  {
    hide Sent, SentOnce, BeginUpload;
    BeginUploadTold(s, s.generation, file, opensFirst);
  }

  lemma BinaryTold(s: State, data: seq<Byte>, blob: bool, opensFirst: bool)
    requires Told(s, opensFirst) && !(s.upload.Some? && s.download.Some?)
    ensures Told(DoBinary(s, data, blob), opensFirst)
  {
    hide Sent, SentOnce, AcceptBinary;
    if s.download.Some? { AcceptBinaryTold(s, s.download.value.id, data, opensFirst); }
  }

  // ----- Every step -----

  /** No message before the socket opens. */
  predicate AfterOpening(s: State, e: Event) { e.Server? ==> !s.socket.Connecting? }

  lemma MessageTold(s: State, m: Message, opensFirst: bool)
    requires Told(s, opensFirst) && !(s.upload.Some? && s.download.Some?) && (opensFirst ==> !s.socket.Connecting?)
    ensures Told(HandleMessage(s, m), opensFirst)
  {
    hide Told, Aside, DoReady, DoListResult, DoUploadReady, DoUploadProgress, DoBinary, DoDownloadStarted,
         DoDownloadDone, DoUploadComplete, DoMutationResult, DoCancelled, DoError;
    var t := HandleMessage(s, m);
    match m
    case Ready(cwd) => ReadyTold(s, cwd, opensFirst);
    case ListResult(id, path, entries) => ListResultAside(s, id, path, entries); AsideKeeps(s, t, opensFirst);
    case UploadReady(id) => UploadMessageTold(s, id, None, opensFirst);
    case UploadProgress(id, loaded) => UploadMessageTold(s, id, loaded, opensFirst);
    case UploadComplete(id) => RefreshAside(s, id); AsideKeeps(s, t, opensFirst);
    case DownloadStarted(id, size) => DownloadStartedTold(s, id, size, opensFirst);
    case Binary(data, blob) => BinaryTold(s, data, blob, opensFirst);
    case DownloadDone(id, size) => EndingAside(s, id, size, true); AsideKeeps(s, t, opensFirst);
    case UploadCancelled(id) => EndingAside(s, id, None, true); AsideKeeps(s, t, opensFirst);
    case DownloadCancelled(id) => EndingAside(s, id, None, false); AsideKeeps(s, t, opensFirst);
    case Error(of) => ErrorAside(s, of); AsideKeeps(s, t, opensFirst);
    case MutationResult(id) => RefreshAside(s, id); AsideKeeps(s, t, opensFirst);
    case ClosedByServer => SessionAside(s, false); AsideKeeps(s, s.(socket := Closing), opensFirst);
    case Other =>
  }

  lemma StepTold(s: State, e: Event, opensFirst: bool)
    requires Told(s, opensFirst) && !(s.upload.Some? && s.download.Some?) && (opensFirst ==> AfterOpening(s, e))
    ensures Told(Next(s, e), opensFirst)
  {
    hide Told, Aside, HandleMessage, DoAskUpload, DoAnswer, DoAskDownload, DoCancel, DoReset, DoAttach, DoOpened,
         DoClosed, DoReadFinished, RequestList, DoBack, DoRefresh, Send;
    match e
    case Attach => SessionAside(s, false); AsideKeeps(s, Next(s, e), opensFirst);
    case Opened => OpenedTold(s, opensFirst);
    case SocketClosing => SessionAside(s, false); AsideKeeps(s, s.(socket := Closing), opensFirst);
    case Closed(shown) => SessionAside(s, shown); AsideKeeps(s, Next(s, e), opensFirst);
    case Reset => SessionAside(s, false); AsideKeeps(s, Next(s, e), opensFirst);
    case Navigate(_) => BrowseAside(s, e); AsideKeeps(s, Next(s, e), opensFirst);
    case Back => BrowseAside(s, e); AsideKeeps(s, Next(s, e), opensFirst);
    case Refresh => BrowseAside(s, e); AsideKeeps(s, Next(s, e), opensFirst);
    case AskMutation => BrowseAside(s, e); AsideKeeps(s, Next(s, e), opensFirst);
    case AskUpload(file, present) => AskUploadTold(s, file, present, opensFirst);
    case Answer(k, overwrite) => AnswerTold(s, k, overwrite, opensFirst);
    case AskDownload(expected) => AskDownloadTold(s, expected, opensFirst);
    case Cancel => CancelTold(s, opensFirst);
    case Server(_, m) => MessageTold(s, m, opensFirst);
    case ReadFinished => ReadFinishedTold(s, opensFirst);
  }

  /** In every run, or in every run of a browser that delivers no message before the socket opens. */
  predicate OpensFirst(events: seq<Event>) {
    forall i :: 0 <= i < |events| ==> AfterOpening(Run(events[..i]), events[i])
  }

  lemma {:induction false} EveryRunTells(events: seq<Event>, opensFirst: bool)
    requires opensFirst ==> OpensFirst(events)
    ensures Told(Run(events), opensFirst)
  {
    hide Next, AfterOpening, TransfersSafe;
    if events == [] {
      InitialTold(opensFirst);
    } else {
      var n := |events| - 1;
      var before := events[..n];
      assert forall i :: 0 <= i < n ==> before[..i] == events[..i];
      EveryRunTells(before, opensFirst);
      EveryRunIsSafe(before);
      SavedBounded(Run(before));
      StepTold(Run(before), events[n], opensFirst);
    }
  }

  lemma InitialTold(opensFirst: bool)
    ensures Told(INITIAL, opensFirst)
  {
  }

  /**
   Over every run: a cancelled upload that the server accepted has its cancel on the wire while the
   socket is open, and no end or cancel is ever sent twice.
   */
  lemma CancelsReachServer(events: seq<Event>)
    ensures var s := Run(events);
      && (s.upload.Some? && s.upload.value.cancelling && s.upload.value.readyForData && s.socket.Open? ==>
            UploadCancel(s.upload.value.id) in s.wire)
      && forall f: Frame :: f.UploadEnd? || f.UploadCancel? || f.DownloadCancel? ==> multiset(s.wire)[f] <= 1
  {
    hide Run;
    EveryRunTells(events, false);
    forall f: Frame | !Neutral(f) ensures multiset(Run(events).wire)[f] <= 1 {
      assert Sent(Run(events).wire, f) <= 1;
    }
  }

  /** The same for downloads that the server has started. */
  lemma DownloadCancelsReachServer(events: seq<Event>)
    requires OpensFirst(events)
    ensures var s := Run(events);
      s.download.Some? && s.download.value.cancelling && s.download.value.started && s.socket.Open? ==>
        DownloadCancel(s.download.value.id) in s.wire
  {
    hide Run, SentOnce;
    EveryRunTells(events, true);
  }

  // ----- A cancelled upload stops -----

  /** The upload is cancelled or gone, with `payload` sent and no end. */
  ghost predicate Stopped(s: State, id: RequestId, payload: seq<Byte>) {
    && id.sequence <= s.sequence && Payload(s.wire, id) == payload && UploadEnd(id) !in s.wire
    && (s.upload.Some? && s.upload.value.id == id ==> s.upload.value.cancelling)
    && (s.upload.Some? ==> LastStart(s.wire) == Some(s.upload.value.id))
  }

  /** A frame that adds nothing to the upload `id`. */
  predicate Beside(wire: seq<Frame>, f: Frame, id: RequestId) {
    f != UploadEnd(id) && (f.Data? ==> LastStart(wire) != Some(id))
  }

  lemma BesideStops(s: State, t: State, f: Frame, id: RequestId, payload: seq<Byte>)
    requires Stopped(s, id, payload) && TransfersSafe(t) && s.sequence <= t.sequence
    requires t.wire == s.wire || (t.wire == s.wire + [f] && Beside(s.wire, f, id))
    requires t.upload.Some? && t.upload.value.id == id ==> t.upload.value.cancelling
    ensures Stopped(t, id, payload)
  {
    hide LastStart, Payload, DataFrames, AllUploadsSound, IdsDrawn;
    OneMoreFrame(s.wire, f);
  }

  lemma AsideStops(s: State, t: State, id: RequestId, payload: seq<Byte>)
    requires Stopped(s, id, payload) && TransfersSafe(t) && Aside(s, t)
    ensures Stopped(t, id, payload)
  {
    hide TransfersSafe, LastStart, Payload;
    if t.wire == s.wire {
      BesideStops(s, t, Init, id, payload);
    } else {
      assert t.wire == s.wire + [t.wire[|s.wire|]];
      BesideStops(s, t, t.wire[|s.wire|], id, payload);
    }
  }

  lemma BeginUploadStops(s: State, generation: nat, file: seq<Byte>, id: RequestId, payload: seq<Byte>)
    requires Stopped(s, id, payload) && TransfersSafe(BeginUpload(s, generation, file))
    ensures Stopped(BeginUpload(s, generation, file), id, payload)
  {
    hide TransfersSafe, LastStart, Payload;
    BesideStops(s, BeginUpload(s, generation, file), UploadStart(NextId(s), file), id, payload);
  }

  lemma UploadGoesOnStops(s: State, u: Upload, id: RequestId, payload: seq<Byte>)
    requires Stopped(s, id, payload) && u.id.sequence <= s.sequence
    requires u.id == id ==> u.cancelling
    ensures u.cancelling && TransfersSafe(SendUploadCancel(s, u)) ==> Stopped(SendUploadCancel(s, u), id, payload)
    ensures !u.cancelling && TransfersSafe(SendNextChunk(s, u)) ==> Stopped(SendNextChunk(s, u), id, payload)
  {
    hide TransfersSafe, LastStart, Payload;
    if u.cancelling && TransfersSafe(SendUploadCancel(s, u)) {
      BesideStops(s, SendUploadCancel(s, u), UploadCancel(u.id), id, payload);
    } else if !u.cancelling && TransfersSafe(SendNextChunk(s, u)) {
      BesideStops(s, SendNextChunk(s, u), UploadEnd(u.id), id, payload);
    }
  }

  lemma UploadReadyStops(s: State, of: RequestId, id: RequestId, payload: seq<Byte>)
    requires Stopped(s, id, payload) && TransfersSafe(s) && TransfersSafe(DoUploadReady(s, of))
    ensures Stopped(DoUploadReady(s, of), id, payload)
  {
    hide TransfersSafe, LastStart, Payload, SendUploadCancel, SendNextChunk;
    if UploadMatches(s, of) && s.upload.value.sent == 0 {
      SafeId(s);
      UploadGoesOnStops(s, s.upload.value.(readyForData := true), id, payload);
    }
  }

  lemma UploadProgressStops(s: State, of: RequestId, loaded: Option<nat>, id: RequestId, payload: seq<Byte>)
    requires Stopped(s, id, payload) && TransfersSafe(s) && TransfersSafe(DoUploadProgress(s, of, loaded))
    ensures Stopped(DoUploadProgress(s, of, loaded), id, payload)
  {
    hide TransfersSafe, LastStart, Payload, SendUploadCancel, SendNextChunk;
    if UploadMatches(s, of) {
      var u0 := s.upload.value;
      SafeId(s);
      var loadedNow := if loaded.Some? then loaded.value else u0.sent;
      UploadGoesOnStops(s.(acks := s.acks[of := Acks(s, of) + 1]),
        u0.(acknowledged := Min(|u0.file|, Max(u0.acknowledged, loadedNow)), awaitingAck := false), id, payload);
    }
  }

  lemma SafeId(s: State)
    requires TransfersSafe(s) && s.upload.Some?
    ensures s.upload.value.id.sequence <= s.sequence && LastStart(s.wire) == Some(s.upload.value.id)
  {
  }

  /** A step that touches at most the download, and sends at most one frame about it. */
  predicate DownloadOnly(s: State, t: State) {
    && t.upload == s.upload && s.sequence <= t.sequence
    && (t.wire == s.wire ||
        (&& |t.wire| == |s.wire| + 1 && t.wire[..|s.wire|] == s.wire
         && (t.wire[|s.wire|].DownloadStart? || t.wire[|s.wire|].DownloadCancel?)))
  }

  lemma SendDownloadCancelOnly(s: State, d: Download)
    ensures DownloadOnly(s, SendDownloadCancel(s, d))
  {
  }

  lemma AskDownloadOnly(s: State, expected: Option<nat>)
    ensures DownloadOnly(s, DoAskDownload(s, expected))
  {
  }

  lemma BinaryOnly(s: State, id: RequestId, data: seq<Byte>, blob: bool)
    ensures DownloadOnly(s, AcceptBinary(s, id, data)) && DownloadOnly(s, DoBinary(s, data, blob))
  {
    hide SendDownloadCancel;
    if s.download.Some? { SendDownloadCancelOnly(s, s.download.value.(cancelling := true)); }
  }

  lemma DownloadStartedOnly(s: State, id: RequestId, size: Option<nat>)
    ensures DownloadOnly(s, DoDownloadStarted(s, id, size))
  {
    hide SendDownloadCancel;
    if s.download.Some? {
      var d := s.download.value.(started := true, expected := size);
      SendDownloadCancelOnly(s, d);
      SendDownloadCancelOnly(s, d.(cancelling := true));
    }
  }

  lemma DownloadOnlyStops(s: State, t: State, id: RequestId, payload: seq<Byte>)
    requires Stopped(s, id, payload) && TransfersSafe(t) && DownloadOnly(s, t)
    ensures Stopped(t, id, payload)
  {
    hide TransfersSafe, LastStart, Payload;
    if t.wire == s.wire {
      BesideStops(s, t, Init, id, payload);
    } else {
      assert t.wire == s.wire + [t.wire[|s.wire|]];
      BesideStops(s, t, t.wire[|s.wire|], id, payload);
    }
  }

  lemma CancelStops(s: State, id: RequestId, payload: seq<Byte>)
    requires Stopped(s, id, payload) && TransfersSafe(s) && TransfersSafe(DoCancel(s))
    ensures Stopped(DoCancel(s), id, payload)
  {
    hide TransfersSafe, LastStart, Payload, SendUploadCancel, SendDownloadCancel, DownloadOnly;
    if s.upload.Some? {
      SafeId(s);
      UploadGoesOnStops(s, s.upload.value.(cancelling := true), id, payload);
    } else if s.download.Some? {
      var d := s.download.value.(cancelling := true);
      SendDownloadCancelOnly(s, d);
      if !s.download.value.cancelling { DownloadOnlyStops(s, SendDownloadCancel(s, d), id, payload); }
    }
  }

  lemma SliceReadStops(s: State, id: RequestId, payload: seq<Byte>)
    requires Stopped(s, id, payload) && TransfersSafe(DoReadFinished(s)) && s.waiting.ReadingSlice?
    ensures Stopped(DoReadFinished(s), id, payload)
  {
    hide TransfersSafe, LastStart, Payload;
    BesideStops(s, DoReadFinished(s), Data(s.waiting.slice), id, payload);
  }

  lemma BlobReadStops(s: State, id: RequestId, payload: seq<Byte>)
    requires Stopped(s, id, payload) && TransfersSafe(DoReadFinished(s)) && s.waiting.ReadingBlob?
    ensures Stopped(DoReadFinished(s), id, payload)
  {
    hide TransfersSafe, LastStart, Payload, AcceptBinary, DownloadOnly;
    var s1 := s.(waiting := NotWaiting);
    BinaryOnly(s1, s.waiting.download, s.waiting.data, true);
    DownloadOnlyStops(s1, DoReadFinished(s), id, payload);
  }

  lemma QuestionStops(s: State, t: State, id: RequestId, payload: seq<Byte>)
    requires Stopped(s, id, payload) && t == s.(questions := t.questions, confirming := t.confirming)
    ensures Stopped(t, id, payload)
  {
  }

  lemma AskUploadStops(s: State, file: seq<Byte>, present: bool, id: RequestId, payload: seq<Byte>)
    requires Stopped(s, id, payload) && TransfersSafe(s) && TransfersSafe(DoAskUpload(s, file, present))
    ensures Stopped(DoAskUpload(s, file, present), id, payload)
  {
    hide TransfersSafe, Stopped, BeginUpload;
    QuestionStops(s, s.(confirming := true, questions := s.questions + [Question(s.generation, file)]), id, payload);
    BeginUploadSafe(s, s.generation, file);
    BeginUploadStops(s, s.generation, file, id, payload);
  }

  lemma AnswerStops(s: State, k: nat, overwrite: bool, id: RequestId, payload: seq<Byte>)
    requires Stopped(s, id, payload) && TransfersSafe(s) && TransfersSafe(DoAnswer(s, k, overwrite))
    ensures Stopped(DoAnswer(s, k, overwrite), id, payload)
  {
    hide TransfersSafe, Stopped, BeginUpload;
    if k < |s.questions| {
      var q := s.questions[k];
      var s1 := s.(questions := s.questions[..k] + s.questions[k + 1..]);
      var s2 := if q.generation == s.generation then s1.(confirming := false) else s1;
      QuestionStops(s, s2, id, payload);
      if overwrite { BeginUploadStops(s2, q.generation, q.file, id, payload); }
    }
  }

  lemma ReadyStops(s: State, cwd: Option<Path>, id: RequestId, payload: seq<Byte>)
    requires Stopped(s, id, payload) && TransfersSafe(DoReady(s, cwd))
    ensures Stopped(DoReady(s, cwd), id, payload)
  {
    hide TransfersSafe, LastStart, Payload, RequestList, Aside;
    if !s.ready {
      var path := if cwd.Some? && ValidPath(cwd.value) then cwd.value else "/";
      var t := s.(ready := true, cwd := path, home := path, history := [path], historyIndex := 0);
      RequestListAside(t, path, Keep);
      AsideStops(t, RequestList(t, path, Keep), id, payload);
    }
  }

  lemma MessageStops(s: State, m: Message, id: RequestId, payload: seq<Byte>)
    requires Stopped(s, id, payload) && TransfersSafe(s) && TransfersSafe(HandleMessage(s, m))
    ensures Stopped(HandleMessage(s, m), id, payload)
  {
    hide Stopped, TransfersSafe, Aside, DownloadOnly, DoReady, DoListResult, DoUploadReady, DoUploadProgress, DoBinary,
         DoDownloadStarted, DoDownloadDone, DoUploadComplete, DoMutationResult, DoCancelled, DoError, AcceptBinary;
    var t := HandleMessage(s, m);
    match m
    case Ready(cwd) => ReadyStops(s, cwd, id, payload);
    case ListResult(of, path, entries) => ListResultAside(s, of, path, entries); AsideStops(s, t, id, payload);
    case UploadReady(of) => UploadReadyStops(s, of, id, payload);
    case UploadProgress(of, loaded) => UploadProgressStops(s, of, loaded, id, payload);
    case UploadComplete(of) => RefreshAside(s, of); AsideStops(s, t, id, payload);
    case DownloadStarted(of, size) => DownloadStartedOnly(s, of, size); DownloadOnlyStops(s, t, id, payload);
    case Binary(data, blob) => BinaryOnly(s, id, data, blob); DownloadOnlyStops(s, t, id, payload);
    case DownloadDone(of, size) => EndingAside(s, of, size, true); AsideStops(s, t, id, payload);
    case UploadCancelled(of) => EndingAside(s, of, None, true); AsideStops(s, t, id, payload);
    case DownloadCancelled(of) => EndingAside(s, of, None, false); AsideStops(s, t, id, payload);
    case Error(of) => ErrorAside(s, of); AsideStops(s, t, id, payload);
    case MutationResult(of) => RefreshAside(s, of); AsideStops(s, t, id, payload);
    case ClosedByServer => if t != s { SessionAside(s, false); AsideStops(s, t, id, payload); }
    case Other =>
  }

  lemma StepStops(s: State, e: Event, id: RequestId, payload: seq<Byte>)
    requires Stopped(s, id, payload) && TransfersSafe(s)
    ensures Stopped(Next(s, e), id, payload)
  {
    hide Stopped, TransfersSafe, Aside, DownloadOnly, HandleMessage, DoAskUpload, DoAnswer, DoAskDownload, DoCancel,
         DoReset, DoAttach, DoOpened, DoClosed, DoReadFinished, RequestList, DoBack, DoRefresh, Send;
    var t := Next(s, e);
    StepSafe(s, e);
    match e
    case Attach => SessionAside(s, false); AsideStops(s, t, id, payload);
    case Opened => OpenedStops(s, id, payload);
    case SocketClosing => if t != s { SessionAside(s, false); AsideStops(s, t, id, payload); }
    case Closed(shown) => SessionAside(s, shown); AsideStops(s, t, id, payload);
    case Reset => SessionAside(s, false); AsideStops(s, t, id, payload);
    case Navigate(_) => BrowseAside(s, e); AsideStops(s, t, id, payload);
    case Back => BrowseAside(s, e); AsideStops(s, t, id, payload);
    case Refresh => BrowseAside(s, e); AsideStops(s, t, id, payload);
    case AskMutation => BrowseAside(s, e); AsideStops(s, t, id, payload);
    case AskUpload(file, present) => AskUploadStops(s, file, present, id, payload);
    case Answer(k, overwrite) => AnswerStops(s, k, overwrite, id, payload);
    case AskDownload(expected) => AskDownloadOnly(s, expected); DownloadOnlyStops(s, t, id, payload);
    case Cancel => CancelStops(s, id, payload);
    case Server(_, m) => if t != s { MessageStops(s, m, id, payload); }
    case ReadFinished =>
      if s.waiting.ReadingSlice? { SliceReadStops(s, id, payload); }
      else if s.waiting.ReadingBlob? { BlobReadStops(s, id, payload); }
      else { NothingToRead(s); }
  }

  lemma OpenedStops(s: State, id: RequestId, payload: seq<Byte>)
    requires Stopped(s, id, payload) && TransfersSafe(DoOpened(s))
    ensures Stopped(DoOpened(s), id, payload)
  {
    hide TransfersSafe, LastStart, Payload;
    BesideStops(s, DoOpened(s), Init, id, payload);
  }

  /** Once an upload is cancelled, nothing more of its file is ever sent, and no end, whatever happens next. */
  lemma {:induction false} CancelledUploadStops(events: seq<Event>, more: seq<Event>)
    requires Run(events).upload.Some? && Run(events).upload.value.cancelling
    ensures var id := Run(events).upload.value.id; var later := Run(events + more);
      && Payload(later.wire, id) == Payload(Run(events).wire, id) && UploadEnd(id) !in later.wire
      && Stopped(later, id, Payload(Run(events).wire, id))
  {
    hide Next, TransfersSafe, Payload, LastStart;
    var id := Run(events).upload.value.id;
    if more == [] {
      assert events + more == events;
      EveryRunIsSafe(events);
      CancelledIsStopped(Run(events));
    } else {
      var n := |more| - 1;
      var before := events + more[..n];
      assert (events + more)[..|events + more| - 1] == before && (events + more)[|events + more| - 1] == more[n];
      CancelledUploadStops(events, more[..n]);
      EveryRunIsSafe(before);
      StepStops(Run(before), more[n], id, Payload(Run(events).wire, id));
    }
  }

  lemma CancelledIsStopped(s: State)
    requires TransfersSafe(s) && s.upload.Some? && s.upload.value.cancelling
    ensures Stopped(s, s.upload.value.id, Payload(s.wire, s.upload.value.id))
  {
    hide Payload, LastStart;
  }

  // ----- A socket that is not open -----

  lemma BrowsingIsSilent(s: State, path: Path, mode: HistoryMode, id: RequestId)
    requires !s.socket.Open?
    ensures RequestList(s, path, mode).wire == DoRefresh(s).wire == DoBack(s).wire == s.wire
    ensures DoUploadComplete(s, id).wire == DoMutationResult(s, id).wire == s.wire
  {
    hide ValidPath;
  }

  lemma SendsNothing(s: State, u: Upload, d: Download)
    requires !s.socket.Open?
    ensures SendUploadCancel(s, u).wire == SendNextChunk(s, u).wire == SendDownloadCancel(s, d).wire == s.wire
  {
  }

  lemma UploadsAreSilent(s: State, id: RequestId, loaded: Option<nat>)
    requires !s.socket.Open? && s.upload.Some?
    ensures DoUploadReady(s, id).wire == DoUploadProgress(s, id, loaded).wire == DoCancel(s).wire == s.wire
  {
    hide SendUploadCancel, SendNextChunk, SendDownloadCancel;
    var u, none := s.upload.value, Download(id, None, [], 0, false, false, false);
    var loadedNow := if loaded.Some? then loaded.value else u.sent;
    SendsNothing(s, u.(readyForData := true), none);
    SendsNothing(s, u.(cancelling := true), none);
    SendsNothing(s.(acks := s.acks[id := Acks(s, id) + 1]),
      u.(acknowledged := Min(|u.file|, Max(u.acknowledged, loadedNow)), awaitingAck := false), none);
  }

  lemma DownloadsAreSilent(s: State, id: RequestId, size: Option<nat>, data: seq<Byte>, blob: bool)
    requires !s.socket.Open? && s.download.Some?
    ensures DoDownloadStarted(s, id, size).wire == s.wire
    ensures AcceptBinary(s, id, data).wire == DoBinary(s, data, blob).wire == s.wire
    ensures s.upload.None? ==> DoCancel(s).wire == s.wire
  {
    hide SendDownloadCancel;
    var d, none := s.download.value, Upload(id, [], 0, 0, false, false, false, false, false);
    SendsNothing(s, none, d.(cancelling := true));
    SendsNothing(s, none, d.(started := true, expected := size));
    SendsNothing(s, none, d.(started := true, expected := size, cancelling := true));
  }

  lemma NoTransferIsSilent(s: State, id: RequestId, size: Option<nat>, data: seq<Byte>, blob: bool)
    ensures s.upload.None? ==> DoUploadReady(s, id) == DoUploadProgress(s, id, size) == s
    ensures s.download.None? ==> DoDownloadStarted(s, id, size) == s
    ensures s.download.None? ==> AcceptBinary(s, id, data) == DoBinary(s, data, blob) == s
    ensures !HasTransfer(s) ==> DoCancel(s) == s
  {
  }

  lemma EndingsAreSilent(s: State, id: RequestId, size: Option<nat>, upload: bool)
    ensures DoDownloadDone(s, id, size).wire == DoCancelled(s, id, upload).wire == s.wire
  {
    hide Flatten;
  }

  lemma ErrorsAreSilent(s: State, of: Option<RequestId>)
    ensures DoError(s, of).wire == s.wire
  {
  }

  lemma SessionIsSilent(s: State, shown: bool)
    requires !s.socket.Open?
    ensures DoReset(s).wire == DoAttach(s).wire == DoClosed(s, shown).wire == s.wire
  {
  }

  lemma UploadStartsAreSilent(s: State, file: seq<Byte>, present: bool, k: nat, overwrite: bool)
    requires !s.socket.Open?
    ensures DoAskUpload(s, file, present).wire == DoAnswer(s, k, overwrite).wire == s.wire
  {
    hide BeginUpload;
    BeginIsSilent(s, s.generation, file);
    if k < |s.questions| {
      var q := s.questions[k];
      var s1 := s.(questions := s.questions[..k] + s.questions[k + 1..]);
      BeginIsSilent(if q.generation == s.generation then s1.(confirming := false) else s1, q.generation, q.file);
    }
  }

  lemma DownloadStartIsSilent(s: State, expected: Option<nat>)
    requires !s.socket.Open?
    ensures DoAskDownload(s, expected).wire == s.wire
  {
  }

  lemma NotSent(s: State, f: Frame)
    requires !s.socket.Open?
    ensures Send(s, f) == s
  {
  }

  lemma BeginIsSilent(s: State, generation: nat, file: seq<Byte>)
    requires !s.socket.Open?
    ensures BeginUpload(s, generation, file) == s
  {
  }

  lemma ListingsAreSilent(s: State, id: RequestId, path: Option<Path>, entries: Option<seq<string>>, cwd: Option<Path>)
    requires !s.socket.Open?
    ensures DoListResult(s, id, path, entries).wire == DoReady(s, cwd).wire == s.wire
  {
    hide ValidPath, Aside, ShowListing;
    if id in s.pending && s.pending[id].Listing? && entries.Some? {
      ShowListingIsSilent(s.(pending := s.pending - {id}).(activeList := None),
        if path.Some? then path.value else s.pending[id].path, s.pending[id].mode, entries.value);
    }
  }

  lemma MessageIsSilent(s: State, m: Message)
    requires !s.socket.Open?
    ensures HandleMessage(s, m).wire == s.wire
  {
    hide DoReady, DoListResult, DoUploadReady, DoUploadProgress, DoBinary, AcceptBinary, DoDownloadStarted,
         DoDownloadDone, DoUploadComplete, DoMutationResult, DoCancelled, DoError, DoCancel, RequestList, DoRefresh,
         DoBack;
    var id := NextId(s);
    match m
    case Ready(cwd) => ListingsAreSilent(s, id, None, None, cwd);
    case ListResult(of, path, entries) => ListingsAreSilent(s, of, path, entries, None);
    case UploadReady(of) => QuietTransfer(s, of, None, [], true);
    case UploadProgress(of, loaded) => QuietTransfer(s, of, loaded, [], true);
    case DownloadStarted(of, announced) => QuietTransfer(s, of, announced, [], true);
    case Binary(bytes, isBlob) => QuietTransfer(s, id, None, bytes, isBlob);
    case UploadComplete(of) => BrowsingIsSilent(s, "/", Keep, of);
    case MutationResult(of) => BrowsingIsSilent(s, "/", Keep, of);
    case DownloadDone(of, announced) => EndingsAreSilent(s, of, announced, true);
    case UploadCancelled(of) => EndingsAreSilent(s, of, None, true);
    case DownloadCancelled(of) => EndingsAreSilent(s, of, None, false);
    case Error(of) => ErrorsAreSilent(s, of);
    case ClosedByServer =>
    case Other =>
  }

  lemma QuietTransfer(s: State, id: RequestId, size: Option<nat>, data: seq<Byte>, blob: bool)
    requires !s.socket.Open?
    ensures DoUploadReady(s, id).wire == DoUploadProgress(s, id, size).wire == DoCancel(s).wire == s.wire
    ensures DoDownloadStarted(s, id, size).wire == s.wire
    ensures AcceptBinary(s, id, data).wire == DoBinary(s, data, blob).wire == s.wire
  {
    hide *;
    NoTransferIsSilent(s, id, size, data, blob);
    NoneInProgress(s);
    if s.upload.Some? { UploadsAreSilent(s, id, size); }
    if s.download.Some? { DownloadsAreSilent(s, id, size, data, blob); }
  }

  lemma NoneInProgress(s: State)
    ensures HasTransfer(s) <==> s.upload.Some? || s.download.Some?
  {
  }

  /** Nothing goes out through a socket that is not open, whatever happens. */
  lemma ClosedIsSilent(s: State, e: Event)
    requires !s.socket.Open? && e != Opened
    ensures Next(s, e).wire == s.wire
  {
    hide HandleMessage, DoCancel, RequestList, DoBack, DoRefresh, AcceptBinary, DoReset, DoAttach, DoClosed,
         DoAskUpload, DoAnswer, DoAskDownload, DoReadFinished, Send;
    match e
    case Attach => SessionIsSilent(s, true);
    case Reset => SessionIsSilent(s, true);
    case Closed(shown) => SessionIsSilent(s, shown);
    case AskUpload(file, present) => UploadStartsAreSilent(s, file, present, 0, true);
    case Answer(k, overwrite) => UploadStartsAreSilent(s, [], true, k, overwrite);
    case AskDownload(expected) => DownloadStartIsSilent(s, expected);
    case Server(_, m) => MessageIsSilent(s, m);
    case Cancel => QuietTransfer(s, NextId(s), None, [], true);
    case Navigate(path) => BrowsingIsSilent(s, path, Push, NextId(s));
    case Back => BrowsingIsSilent(s, "/", Push, NextId(s));
    case Refresh => BrowsingIsSilent(s, "/", Push, NextId(s));
    case ReadFinished => ReadsAreSilent(s);
    case AskMutation => NotSent(CreateRequest(s, Mutation), Mutate(NextId(s)));
    case SocketClosing =>
  }

  lemma ReadsAreSilent(s: State)
    requires !s.socket.Open?
    ensures DoReadFinished(s).wire == s.wire
  {
    hide AcceptBinary;
    if s.waiting.ReadingBlob? {
      QuietTransfer(s.(waiting := NotWaiting), s.waiting.download, None, s.waiting.data, true);
    }
  }

  /** The server's close, and the browser's, leave a socket that is not open. */
  lemma CloseIsNoticed(s: State)
    requires !s.socket.NoSocket?
    ensures Next(s, SocketClosing).socket.Closing?
    ensures s.waiting.NotWaiting? ==> Next(s, Server(s.generation, ClosedByServer)).socket.Closing?
  {
  }
}
