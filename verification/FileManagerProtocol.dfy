/**
 The WebSSH file manager (webssh/src/file-manager.ts) as a machine whose steps are the
 stretches of code between two `await`s.  Server messages pass through a queue that
 handles one at a time; user actions and socket events may fall between any two steps,
 in particular while a handler waits for a file slice or a blob to be read.
 */
module FileManagerProtocol {

  import opened Wrappers

  type Byte = bv8
  type Path = string

  const MAX_FILE_SIZE := 64 * 1024 * 1024
  const CHUNK_SIZE := 64 * 1024

  /** Request ids are `${generation}-${sequence}`; the sequence is never reset. */
  datatype RequestId = RequestId(generation: nat, sequence: nat)

  /** What the client puts on the wire.  `UploadStart` carries the file's size; the file is kept here to speak of it. */
  datatype Frame =
    | Init | Bye
    | ListDir(id: RequestId, path: Path)
    | UploadStart(id: RequestId, file: seq<Byte>) | Data(bytes: seq<Byte>)
    | UploadEnd(id: RequestId) | UploadCancel(id: RequestId)
    | DownloadStart(id: RequestId) | DownloadCancel(id: RequestId)
    | Mutate(id: RequestId)

  datatype HistoryMode = Push | Keep | Index(at: int)
  datatype Operation = Listing(path: Path, mode: HistoryMode) | Transfer | Mutation

  datatype Upload = Upload(id: RequestId, file: seq<Byte>, sent: nat, acknowledged: nat, awaitingAck: bool,
                           endSent: bool, readyForData: bool, cancelling: bool, cancelSent: bool)

  datatype Download = Download(id: RequestId, expected: Option<nat>, chunks: seq<seq<Byte>>, received: nat,
                               started: bool, cancelling: bool, cancelSent: bool)

  datatype Socket = NoSocket | Connecting | Open | Closing

  /** The handler at the head of the message queue, when it waits. */
  datatype Waiting = NotWaiting | ReadingSlice(upload: RequestId, end: nat, slice: seq<Byte>)
      | ReadingBlob(download: RequestId, data: seq<Byte>)

  /** An overwrite question put to the user by `upload`, with the generation it was asked in. */
  datatype Question = Question(generation: nat, file: seq<Byte>)

  datatype State = State(
    socket: Socket, generation: nat, sequence: nat, ready: bool,
    cwd: Path, home: Path, history: seq<Path>, historyIndex: int, entries: seq<string>,
    pending: map<RequestId, Operation>, activeList: Option<RequestId>,
    upload: Option<Upload>, download: Option<Download>,
    questions: seq<Question>, confirming: bool, waiting: Waiting,
    wire: seq<Frame>, acks: map<RequestId, nat>, saved: seq<seq<Byte>>)

  const INITIAL := State(NoSocket, 0, 0, false, "/", "/", ["/"], 0, [], map[], None, None, None, [], false,
                         NotWaiting, [], map[], [])

  datatype Message =
    | Ready(cwd: Option<Path>)
    | ListResult(id: RequestId, path: Option<Path>, entries: Option<seq<string>>)
    | UploadReady(id: RequestId) | UploadProgress(id: RequestId, loaded: Option<nat>) | UploadComplete(id: RequestId)
    | DownloadStarted(id: RequestId, size: Option<nat>) | Binary(data: seq<Byte>, blob: bool)
    | DownloadDone(id: RequestId, size: Option<nat>)
    | UploadCancelled(id: RequestId) | DownloadCancelled(id: RequestId)
    | Error(of: Option<RequestId>) | MutationResult(id: RequestId) | ClosedByServer | Other

  datatype Event =
    | Attach | Opened | SocketClosing | Closed(shown: bool) | Reset
    | Navigate(path: Path) | Back | Refresh
    | AskUpload(file: seq<Byte>, present: bool) | Answer(question: nat, overwrite: bool)
    | AskDownload(expected: Option<nat>) | Cancel | AskMutation
    | Server(generation: nat, message: Message) | ReadFinished

  // ----- Helpers of the source -----

  predicate ValidPath(p: Path) {
    0 < |p| <= 4096 && p[0] == '/' && forall i :: 0 <= i < |p| ==> p[i] >= ' ' && p[i] != '\U{007f}'
  }

  function Send(s: State, f: Frame): State {
    if s.socket.Open? then s.(wire := s.wire + [f]) else s
  }

  function NextId(s: State): RequestId { RequestId(s.generation, s.sequence + 1) }

  function CreateRequest(s: State, op: Operation): State {
    s.(sequence := s.sequence + 1, pending := s.pending[NextId(s) := op])
  }

  function AbortTransfers(s: State): State { s.(upload := None, download := None) }

  predicate HasTransfer(s: State) { s.upload.Some? || s.download.Some? }

  predicate UploadMatches(s: State, id: RequestId) {
    s.upload.Some? && s.upload.value.id == id && id.generation == s.generation
  }

  predicate DownloadMatches(s: State, id: RequestId) {
    s.download.Some? && s.download.value.id == id && id.generation == s.generation
  }

  function Min(a: nat, b: nat): nat { if a < b then a else b }
  function Max(a: nat, b: nat): nat { if a < b then b else a }

  // ----- Session -----

  /** `reset`: forget the session; tell the server if the socket is open. */
  function DoReset(s: State): State {
    Send(s, Bye).(
      generation := s.generation + 1, socket := NoSocket, ready := false, confirming := false, pending := map[],
      activeList := None, upload := None, download := None,
      cwd := "/", home := "/", history := ["/"], historyIndex := 0, entries := [])
  }

  function DoAttach(s: State): State { DoReset(s).(socket := Connecting) }

  function DoOpened(s: State): State {
    if s.socket.Connecting? then Send(s.(socket := Open), Init) else s
  }

  /** The close handler of the current socket; the generation stays.  `shown`: the disconnected view is drawn. */
  function DoClosed(s: State, shown: bool): State {
    if s.socket.NoSocket? then s
    else
      AbortTransfers(s.(socket := NoSocket, ready := false, pending := map[], activeList := None,
                        entries := if shown then [] else s.entries))
  }

  // ----- Listings -----

  function RequestList(s: State, path: Path, mode: HistoryMode): State {
    if !s.ready || !s.socket.Open? || !ValidPath(path) then s
    else
      var s1 := if s.activeList.Some? then s.(pending := s.pending - {s.activeList.value}) else s;
      Send(CreateRequest(s1, Listing(path, mode)).(activeList := Some(NextId(s))), ListDir(NextId(s), path))
  }

  function DoBack(s: State): State {
    if !s.ready || s.historyIndex <= 0 || s.historyIndex > |s.history| then s
    else RequestList(s, s.history[s.historyIndex - 1], Index(s.historyIndex - 1))
  }

  function DoRefresh(s: State): State { if s.ready then RequestList(s, s.cwd, Keep) else s }

  function DoReady(s: State, cwd: Option<Path>): State {
    if s.ready then s
    else
      var path := if cwd.Some? && ValidPath(cwd.value) then cwd.value else "/";
      RequestList(s.(ready := true, cwd := path, home := path, history := [path], historyIndex := 0), path, Keep)
  }

  /** Show a listing: move to `path` and record it in the history as the request asked. */
  function ShowListing(s: State, path: Path, mode: HistoryMode, entries: seq<string>): State {
    var s1 := s.(cwd := path, entries := entries);
    match mode
    case Push =>
      if 0 <= s.historyIndex < |s.history| && s.history[s.historyIndex] == path then s1
      else
        var kept := if -1 <= s.historyIndex < |s.history| then s.history[..s.historyIndex + 1] else s.history;
        s1.(history := kept + [path], historyIndex := |kept|)
    case Index(at) => s1.(historyIndex := at)
    case Keep => s1
  }

  function DoListResult(s: State, id: RequestId, path: Option<Path>, entries: Option<seq<string>>): State {
    if id !in s.pending || id.generation != s.generation || !s.pending[id].Listing? then s
    else
      var op := s.pending[id];
      var s1 := s.(pending := s.pending - {id});
      if s.activeList != Some(id) then s1
      else
        var s2 := s1.(activeList := None);
        var shown := if path.Some? then path.value else op.path;
        if !ValidPath(shown) || entries.None? then s2 else ShowListing(s2, shown, op.mode, entries.value)
  }

  // ----- Uploads -----

  function DoAskUpload(s: State, file: seq<Byte>, present: bool): State {
    if !s.ready || HasTransfer(s) || s.confirming || |file| > MAX_FILE_SIZE then s
    else if present then s.(confirming := true, questions := s.questions + [Question(s.generation, file)])
    else BeginUpload(s, s.generation, file)
  }

  /** The user answers the k-th open question; `upload` goes on after its await. */
  function DoAnswer(s: State, k: nat, overwrite: bool): State {
    if k >= |s.questions| then s
    else
      var q := s.questions[k];
      var s1 := s.(questions := s.questions[..k] + s.questions[k + 1..]);
      var s2 := if q.generation == s.generation then s1.(confirming := false) else s1;
      if overwrite then BeginUpload(s2, q.generation, q.file) else s2
  }

  function BeginUpload(s: State, generation: nat, file: seq<Byte>): State {
    if generation != s.generation || !s.ready || HasTransfer(s) || !s.socket.Open? then s
    else
      var u := Upload(NextId(s), file, 0, 0, false, false, false, false, false);
      Send(CreateRequest(s, Transfer).(upload := Some(u)), UploadStart(NextId(s), file))
  }

  /** `sendNextUploadChunk` up to its await: send the end, or start reading the next slice. */
  function SendNextChunk(s: State, u: Upload): State {
    if u.id.generation != s.generation || !u.readyForData || u.cancelling || u.awaitingAck || u.endSent ||
      !s.socket.Open? then
      s.(upload := Some(u))
    else if u.sent >= |u.file| then
      Send(s.(upload := Some(u.(endSent := true))), UploadEnd(u.id))
    else
      var end := Min(|u.file|, u.sent + CHUNK_SIZE);
      s.(upload := Some(u), waiting := ReadingSlice(u.id, end, u.file[u.sent..end]))
  }

  /** `sendNextUploadChunk` after its await. */
  function SliceRead(s: State, id: RequestId, end: nat, slice: seq<Byte>): State {
    if !UploadMatches(s, id) || s.upload.value.cancelling || !s.socket.Open? then s
    else Send(s, Data(slice)).(upload := Some(s.upload.value.(sent := end, awaitingAck := true)))
  }

  function SendUploadCancel(s: State, u: Upload): State {
    if u.cancelSent || !u.readyForData || !s.socket.Open? then s.(upload := Some(u))
    else Send(s.(upload := Some(u.(cancelSent := true))), UploadCancel(u.id))
  }

  function DoUploadReady(s: State, id: RequestId): State {
    if !UploadMatches(s, id) || s.upload.value.sent != 0 then s
    else
      var u := s.upload.value.(readyForData := true);
      if u.cancelling then SendUploadCancel(s, u) else SendNextChunk(s, u)
  }

  function DoUploadProgress(s: State, id: RequestId, loaded: Option<nat>): State {
    if !UploadMatches(s, id) then s
    else
      var u0 := s.upload.value;
      var loadedNow := if loaded.Some? then loaded.value else u0.sent;
      var u := u0.(acknowledged := Min(|u0.file|, Max(u0.acknowledged, loadedNow)), awaitingAck := false);
      var s1 := s.(acks := s.acks[id := Acks(s, id) + 1]);
      if u.cancelling then SendUploadCancel(s1, u) else SendNextChunk(s1, u)
  }

  /** Progress messages received so far for an upload. */
  function Acks(s: State, id: RequestId): nat { CountOf(s.acks, id) }

  function CountOf(acks: map<RequestId, nat>, id: RequestId): nat { if id in acks then acks[id] else 0 }

  function DoUploadComplete(s: State, id: RequestId): State {
    if !UploadMatches(s, id) then s else DoRefresh(s.(pending := s.pending - {id}, upload := None))
  }

  // ----- Downloads -----

  function DoAskDownload(s: State, expected: Option<nat>): State {
    if !s.ready || HasTransfer(s) || (expected.Some? && expected.value > MAX_FILE_SIZE) then s
    else
      var d := Download(NextId(s), expected, [], 0, false, false, false);
      Send(CreateRequest(s, Transfer).(download := Some(d)), DownloadStart(NextId(s)))
  }

  function SendDownloadCancel(s: State, d: Download): State {
    if d.cancelSent || !d.started || !s.socket.Open? then s.(download := Some(d))
    else Send(s.(download := Some(d.(cancelSent := true))), DownloadCancel(d.id))
  }

  function DoDownloadStarted(s: State, id: RequestId, size: Option<nat>): State {
    if !DownloadMatches(s, id) then s
    else
      var d := s.download.value.(started := true, expected := size);
      if d.cancelling then SendDownloadCancel(s, d)
      else if size.Some? && size.value > MAX_FILE_SIZE then SendDownloadCancel(s, d.(cancelling := true))
      else s.(download := Some(d))
  }

  function DoBinary(s: State, data: seq<Byte>, blob: bool): State {
    if s.download.None? || s.download.value.id.generation != s.generation then s
    else if blob then s.(waiting := ReadingBlob(s.download.value.id, data))
    else AcceptBinary(s, s.download.value.id, data)
  }

  function AcceptBinary(s: State, id: RequestId, data: seq<Byte>): State {
    if !DownloadMatches(s, id) || s.download.value.cancelling then s
    else
      var d := s.download.value;
      if d.received + |data| > MAX_FILE_SIZE then SendDownloadCancel(s, d.(cancelling := true))
      else s.(download := Some(d.(chunks := d.chunks + [data], received := d.received + |data|)))
  }

  function DoDownloadDone(s: State, id: RequestId, size: Option<nat>): State {
    if !DownloadMatches(s, id) then s
    else
      var d := s.download.value;
      var expected := if size.Some? then size else d.expected;
      var s1 := AbortTransfers(s.(pending := s.pending - {id}));
      if d.cancelling || (expected.Some? && d.received != expected.value) then s1
      else s1.(saved := s.saved + [Flatten(d.chunks)])
  }

  function Flatten(chunks: seq<seq<Byte>>): seq<Byte> {
    if chunks == [] then [] else Flatten(chunks[..|chunks| - 1]) + chunks[|chunks| - 1]
  }

  // ----- Both -----

  /** `requestTransferCancel`: the user's cancel button. */
  function DoCancel(s: State): State {
    if s.upload.Some? then
      var u := s.upload.value;
      if u.cancelling || u.endSent then s else SendUploadCancel(s, u.(cancelling := true))
    else if s.download.Some? then
      var d := s.download.value;
      if d.cancelling then s else SendDownloadCancel(s, d.(cancelling := true))
    else s
  }

  function DoCancelled(s: State, id: RequestId, upload: bool): State {
    if if upload then UploadMatches(s, id) && s.upload.value.cancelling
       else DownloadMatches(s, id) && s.download.value.cancelling
    then AbortTransfers(s.(pending := s.pending - {id}))
    else s
  }

  function DoError(s: State, of: Option<RequestId>): State {
    if of.None? || of.value !in s.pending || of.value.generation != s.generation then s
    else
      var id := of.value;
      var s1 := s.(pending := s.pending - {id});
      if s.pending[id].Listing? && s.activeList != Some(id) then s1
      else
        var s2 := if s.activeList == Some(id) then s1.(activeList := None) else s1;
        if (s.upload.Some? && s.upload.value.id == id) || (s.download.Some? && s.download.value.id == id)
        then AbortTransfers(s2) else s2
  }

  function DoMutationResult(s: State, id: RequestId): State {
    if id !in s.pending || id.generation != s.generation || !s.pending[id].Mutation? then s
    else DoRefresh(s.(pending := s.pending - {id}))
  }

  function HandleMessage(s: State, m: Message): State {
    match m
    case Ready(cwd) => DoReady(s, cwd)
    case ListResult(id, path, entries) => DoListResult(s, id, path, entries)
    case UploadReady(id) => DoUploadReady(s, id)
    case UploadProgress(id, loaded) => DoUploadProgress(s, id, loaded)
    case UploadComplete(id) => DoUploadComplete(s, id)
    case DownloadStarted(id, size) => DoDownloadStarted(s, id, size)
    case Binary(data, blob) => DoBinary(s, data, blob)
    case DownloadDone(id, size) => DoDownloadDone(s, id, size)
    case UploadCancelled(id) => DoCancelled(s, id, true)
    case DownloadCancelled(id) => DoCancelled(s, id, false)
    case Error(of) => DoError(s, of)
    case MutationResult(id) => DoMutationResult(s, id)
    case ClosedByServer => if s.socket.NoSocket? then s else s.(socket := Closing)
    case Other => s
  }

  function DoReadFinished(s: State): State {
    var s1 := s.(waiting := NotWaiting);
    match s.waiting
    case NotWaiting => s
    case ReadingSlice(id, end, slice) => SliceRead(s1, id, end, slice)
    case ReadingBlob(id, data) => AcceptBinary(s1, id, data)
  }

  /**
   One step.  A message is handled only when no earlier handler waits, and dropped when its
   socket is not the current one.
   */
  function Next(s: State, e: Event): State {
    match e
    case Attach => DoAttach(s)
    case Opened => DoOpened(s)
    case SocketClosing => if s.socket.NoSocket? then s else s.(socket := Closing)
    case Closed(shown) => DoClosed(s, shown)
    case Reset => DoReset(s)
    case Navigate(path) => RequestList(s, path, Push)
    case Back => DoBack(s)
    case Refresh => DoRefresh(s)
    case AskUpload(file, present) => DoAskUpload(s, file, present)
    case Answer(k, overwrite) => DoAnswer(s, k, overwrite)
    case AskDownload(expected) => DoAskDownload(s, expected)
    case Cancel => DoCancel(s)
    case AskMutation => Send(CreateRequest(s, Mutation), Mutate(NextId(s)))
    case Server(generation, m) => if !s.waiting.NotWaiting? || generation != s.generation then s
      else HandleMessage(s, m)
    case ReadFinished => DoReadFinished(s)
  }

  /** The state after any sequence of events whatever. */
  function Run(events: seq<Event>): State {
    if events == [] then INITIAL else Next(Run(events[..|events| - 1]), events[|events| - 1])
  }
}
