/**
 * The main process's comment session (`startServer.ts`): the BBS thread
 * poller, the comment queue and its presenter, the translation queue and
 * its translator, and the operations that start, stop and reconfigure them.
 *
 * Each loop of the original is an `async` function that does one step and
 * then schedules itself again; one step is modelled as one method call that
 * says whether the loop goes on. A step is atomic here. What the fetch
 * functions return (`getBbsResponse`, `getThreadList`) is an input of the
 * step, and everything sent to a window, to the overlay or to the settings
 * store is appended to the `events` trace.
 *
 * Every method is specified by a pure transition function on a `State`
 * value (the session's fields read at once); the properties of the original
 * are lemmas about those functions.
 */
module Server {
  import opened Wrappers
  import opened Strings
  import opened JsNumber
  import opened Comments
  import opened Render

  /** What the session sends out. */
  datatype Event =
    | Status(category: string, message: Option<string>)  // the BBS line of the main window's status area
    | ChatWindow(comments: seq<Comment>)                 // `sendDomForChatWindow`
    | Broadcast(comments: seq<Comment>)                  // `sendDom`: overlay, chat window and speech
    | TranslateWindow(dom: string)                       // `SHOW_COMMENT_TL`
    | Alert(text: string)                                // `SHOW_ALERT`
    | SaveConfig(config: Config)                         // `SAVE_CONFIG`
    | ResetOverlay(initMessage: string)                  // `resetInitMessage`
    | ClearChat                                          // `CLEAR_COMMENT` to the chat window
    | ClearTranslate                                     // `CLEAR_COMMENT` to the translation window

  /** The loops that starting the server launches. */
  datatype Loop = Poller | Presenter | Translator

  /** The session's fields, read at once. */
  datatype State = State(
    config: Config,
    threadNumber: Num,
    queue: seq<Comment>,
    translateQueue: seq<Comment>,
    threadConnectionError: int,
    serverId: int,
    threadIntervalEvent: bool,
    isExecuteQue: bool,
    serverCreated: bool,  // `server` and `aWss` have been assigned by a START
    events: seq<Event>)

  // ---------------------------------------------------------------------------
  // starting, stopping, reconfiguring

  function StartState(s: State, cfg: Config, now: int): (r: State) {
    s.(events := s.events + [ClearChat, ClearTranslate],
       threadNumber := Int(0), queue := [], threadConnectionError := 0, serverId := now,
       config := cfg, threadIntervalEvent := true, isExecuteQue := true, serverCreated := true)
  }

  function StartedLoops(cfg: Config): (r: seq<Loop>) {
    [Poller, Presenter] + (if cfg.translate.enable then [Translator] else [])
  }

  /** `STOP_SERVER`; before the first START, `server.close()` throws and nothing happens. */
  function StopState(s: State): (r: State) {
    if !s.serverCreated then s
    else
      s.(isExecuteQue := false, queue := [], threadIntervalEvent := false,
         events := s.events + [Status("title", Some("")), Status("status", Some("connection end"))])
  }

  const BadUrlAlert: string := "掲示板URLがおかしそうです"

  /**
   * Applying a configuration. `fetched` is the new thread's response list,
   * consulted only when the URL changed to a non-empty one. The overlay
   * reset (`dispType` 1) goes through `aWss` unguarded, so before the first
   * START it throws and the handler ends right after storing the
   * configuration.
   */
  function ApplyConfigState(s: State, cfg: Config, fetched: seq<Comment>): (r: State) {
    var changed := s.config.url != cfg.url;
    var s1 := s.(config := cfg, events := s.events + (if cfg.dispType == 1 then [ResetOverlay(cfg.initMessage)] else []));
    if cfg.dispType == 1 && !s.serverCreated then s.(config := cfg)
    else if changed && cfg.url != "" then NewThread(s1, fetched)
    else s1
  }

  /** The new thread's responses: an alert when there are none, else the cursor at the last one, which alone is broadcast. */
  function NewThread(s: State, fetched: seq<Comment>): (r: State) {
    if fetched == [] then s.(events := s.events + [Alert(BadUrlAlert)])
    else
      var last := fetched[|fetched| - 1];
      s.(threadNumber := NumberOf(last),
         events := s.events + [Broadcast([last]), Status("title", fetched[0].threadTitle)])
  }

  // ---------------------------------------------------------------------------
  // the poller

  /** `Number(c.number)`; a missing number is `NaN`. */
  function NumberOf(c: Comment): (r: Num) {
    if c.number.Some? then ToNumber(c.number.value) else NaN
  }

  /** The filter of a later poll: an item without a number is kept, one with a number only when it is past the cursor. */
  predicate Newer(c: Comment, cursor: Num) {
    c.HasNumber() ==> Greater(NumberOf(c), cursor)
  }

  /** `a` is `b` with some elements left out, the rest in the same order. */
  predicate IsSubsequence<T(==)>(a: seq<T>, b: seq<T>)
    decreases |b|
  {
    if a == [] then true
    else if b == [] then false
    else (a[|a| - 1] == b[|b| - 1] && IsSubsequence(a[..|a| - 1], b[..|b| - 1])) || IsSubsequence(a, b[..|b| - 1])
  }

  function KeepNewer(items: seq<Comment>, cursor: Num): (r: seq<Comment>)
    ensures IsSubsequence(r, items)
    ensures forall c :: c in r ==> c in items && Newer(c, cursor)
    ensures forall c :: c in items && Newer(c, cursor) ==> c in r
    decreases |items|
  {
    if items == [] then []
    else
      var init := items[..|items| - 1];
      var last := items[|items| - 1];
      assert items == init + [last];
      var r := KeepNewer(init, cursor);
      if Newer(last, cursor) then r + [last] else r
  }

  /** Some queued comment has this number (`===`, so two missing numbers are equal). */
  predicate Queued(q: seq<Comment>, number: Option<string>) {
    exists k :: 0 <= k < |q| && q[k].number == number
  }

  /** The queue after a later poll: each fetched item in turn, unless its number is already queued. */
  function Deduped(queue: seq<Comment>, items: seq<Comment>): (r: seq<Comment>)
    decreases |items|
  {
    if items == [] then queue
    else
      var q := Deduped(queue, items[..|items| - 1]);
      var item := items[|items| - 1];
      if Queued(q, item.number) then q else q + [item]
  }

  /** What a first poll shows in the chat window: the whole result, newest first unless sorted ascending. */
  function FirstShown(result: seq<Comment>, dispSort: bool): (r: seq<Comment>) {
    if dispSort then result else Reverse(result)
  }

  function OkStatus(n: Num): (r: string) {
    "ok res=" + NumToString(n)
  }

  /** A poll waits without fetching while no URL is set, as long as its session is current. */
  predicate WaitsForUrl(s: State, exeId: int) {
    s.config.url == "" && s.threadIntervalEvent && exeId == s.serverId
  }

  /** The fetched list after the filter: a first poll (a falsy cursor) queries with `NaN` and keeps everything. */
  function PollResult(s: State, fetched: seq<Comment>): (r: seq<Comment>) {
    var resNum := if !Truthy(s.threadNumber) then NaN else s.threadNumber;
    if Truthy(resNum) then KeepNewer(fetched, resNum) else fetched
  }

  /** The responses of one poll integrated into the state (the part of a poll before the thread checks). */
  function Receive(s: State, fetched: seq<Comment>): (r: State) {
    var isFirst := !Truthy(s.threadNumber);
    var e0 := if isFirst && |fetched| > 0 then s.events + [Status("title", fetched[0].threadTitle)] else s.events;
    var result := PollResult(s, fetched);
    if |result| > 0 && result[|result| - 1].HasNumber() then
      var n := NumberOf(result[|result| - 1]);
      if isFirst then
        s.(threadNumber := n, events := e0 + [ChatWindow(FirstShown(result, s.config.dispSort))] + [Status("status", Some(OkStatus(n)))])
      else
        s.(threadNumber := n, queue := Deduped(s.queue, result), events := e0 + [Status("status", Some(OkStatus(n)))])
    else if |result| > 0 then
      s.(events := e0 + [Status("status", Some("error!")), ChatWindow(result)])
    else
      s.(events := e0)
  }

  predicate IsCandidate(t: ThreadInfo, url: string) {
    t.url != url && t.resNum < 1000
  }

  /** The position of the first thread that is not the current one and has fewer than 1000 responses. */
  function FirstCandidate(list: seq<ThreadInfo>, url: string): (r: Option<nat>)
    ensures r.Some? ==> r.value < |list| && IsCandidate(list[r.value], url)
    ensures r.Some? ==> forall j :: 0 <= j < r.value ==> !IsCandidate(list[j], url)
    ensures r.None? ==> forall j :: 0 <= j < |list| ==> !IsCandidate(list[j], url)
    decreases |list|
  {
    if list == [] then None
    else if IsCandidate(list[0], url) then Some(0)
    else
      match FirstCandidate(list[1..], url)
      case None => None
      case Some(i) => Some(i + 1)
  }

  function MoveNotice(name: string): (r: string) {
    "レス1000を超えました。次スレ候補 「" + name + "」 に移動します"
  }

  /** The move to the first candidate, if there is one. */
  function MoveTo(s: State, threadList: seq<ThreadInfo>): (r: State) {
    match FirstCandidate(threadList, s.config.url)
    case None => s
    case Some(i) =>
      var cfg := s.config.(url := threadList[i].url);
      s.(queue := s.queue + [SystemComment(MoveNotice(threadList[i].name))],
         config := cfg, threadNumber := Int(0), events := s.events + [SaveConfig(cfg)])
  }

  /** The guard of `checkAutoMoveThread` as written: it returns early when `threadNumber < 1000`, which is false for `NaN`. */
  predicate MoveGuardAsWritten(s: State) {
    s.config.moveThread && !LessThan(s.threadNumber, 1000)
  }

  /** The guard as intended: the cursor has reached 1000. */
  predicate MoveGuard(s: State) {
    s.config.moveThread && AtLeast(s.threadNumber, 1000)
  }

  function AutoMoveAsWritten(s: State, threadList: seq<ThreadInfo>): (r: State) {
    if MoveGuardAsWritten(s) then MoveTo(s, threadList) else s
  }

  /** `checkAutoMoveThread`, with the intended guard. */
  function AutoMove(s: State, threadList: seq<ThreadInfo>): (r: State) {
    if MoveGuard(s) then MoveTo(s, threadList) else s
  }

  function LimitNotice(limit: int): (r: string) {
    "レスが" + NumToString(Int(limit)) + "を超えました。次スレを立ててください。"
  }

  predicate LimitReached(s: State) {
    s.config.notifyThreadResLimit > 0 && AtLeast(s.threadNumber, s.config.notifyThreadResLimit)
  }

  /** `notifyThreadResLimit` */
  function NotifyLimit(s: State): (r: State) {
    if LimitReached(s) then s.(events := s.events + [ChatWindow([SystemComment(LimitNotice(s.config.notifyThreadResLimit))])])
    else s
  }

  /** One step of `getResInterval`. */
  function Poll(s: State, exeId: int, fetched: seq<Comment>, threadList: seq<ThreadInfo>): (r: State) {
    if WaitsForUrl(s, exeId) then s else NotifyLimit(AutoMove(Receive(s, fetched), threadList))
  }

  /** Whether the poller schedules its next step. */
  predicate PollContinues(s: State, exeId: int) {
    s.threadIntervalEvent && exeId == s.serverId
  }

  // ---------------------------------------------------------------------------
  // the presenter and the translator

  /** What the batch mode emits: the whole queue, reversed when newest comes first. */
  function Batch(queue: seq<Comment>, dispSort: bool): (r: seq<Comment>) {
    if dispSort then queue else Reverse(queue)
  }

  function Enqueue(tq: seq<Comment>, cfg: Config, items: seq<Comment>): (r: seq<Comment>) {
    if cfg.translate.enable then tq + items else tq
  }

  /** One step of `taskScheduler`. */
  function Present(s: State): (r: State) {
    if |s.queue| == 0 then s
    else if s.config.commentProcessType == 0 then
      var temp := Batch(s.queue, s.config.dispSort);
      s.(queue := [], events := s.events + [Broadcast(temp)], translateQueue := Enqueue(s.translateQueue, s.config, temp))
    else
      var c := s.queue[0];
      s.(queue := s.queue[1..], events := s.events + [Broadcast([c])], translateQueue := Enqueue(s.translateQueue, s.config, [c]))
  }

  /** Whether the presenter and the translator schedule their next step. */
  predicate QueueContinues(s: State, exeId: int) {
    s.isExecuteQue && exeId == s.serverId
  }

  /** Which comments are translated: those without Japanese when the target is Japanese, all when it is English. */
  predicate TranslateGate(targetLang: string, isNihongo: string -> bool, text: string) {
    (targetLang == "ja" && !isNihongo(text)) || targetLang == "en"
  }

  /**
   * One step of `translateTaskScheduler`. The translator gets the prepared,
   * unescaped text and the target language and yields `None` when it fails.
   */
  function TranslateStep(s: State, isNihongo: string -> bool, translator: (string, string) -> Option<string>,
                         escape: string -> string, unescape: string -> string): (r: State)
  {
    if |s.translateQueue| == 0 then s
    else
      var c := s.translateQueue[0];
      var s1 := s.(translateQueue := s.translateQueue[1..]);
      var lang := s.config.translate.targetLang;
      if TranslateGate(lang, isNihongo, c.text) then
        match TranslateWindowDom(c, s.config, translator(unescape(TranslationSource(c.text)), lang), escape)
        case None => s1
        case Some(dom) => s1.(events := s1.events + [TranslateWindow(dom)])
      else s1
  }

  // ---------------------------------------------------------------------------
  // the session object

  class Session {
    var config: Config
    var threadNumber: Num
    var queue: seq<Comment>           // `commentQueueList`
    var translateQueue: seq<Comment>  // `translateQueueList`
    var threadConnectionError: int
    var serverId: int
    var threadIntervalEvent: bool
    var isExecuteQue: bool
    var serverCreated: bool
    var events: seq<Event>

    function Snapshot(): (r: State)
      reads this
    {
      State(config, threadNumber, queue, translateQueue, threadConnectionError, serverId,
            threadIntervalEvent, isExecuteQue, serverCreated, events)
    }

    /** The process before the server is started: nothing runs, no session id yet. */
    constructor (cfg: Config)
      ensures Snapshot() == State(cfg, Int(0), [], [], 0, 0, false, false, false, [])
    {
      config := cfg;
      threadNumber := Int(0);
      queue := [];
      translateQueue := [];
      threadConnectionError := 0;
      serverId := 0;
      threadIntervalEvent := false;
      isExecuteQue := false;
      serverCreated := false;
      events := [];
    }

    /** `START_SERVER`: a new session id, the cursor and the queue reset, the loops launched with that id. */
    method Start(cfg: Config, now: int) returns (loops: seq<Loop>)
      modifies this
      ensures Snapshot() == StartState(old(Snapshot()), cfg, now)
      ensures loops == StartedLoops(cfg)
    {
      events := events + [ClearChat, ClearTranslate];
      threadNumber := Int(0);
      queue := [];
      threadConnectionError := 0;
      serverId := now;
      serverCreated := true;
      config := cfg;
      threadIntervalEvent := true;
      loops := [Poller];
      isExecuteQue := true;
      loops := loops + [Presenter];
      if config.translate.enable {
        loops := loops + [Translator];
      }
    }

    /** `STOP_SERVER` */
    method Stop()
      modifies this
      ensures Snapshot() == StopState(old(Snapshot()))
    {
      if !serverCreated { return; }
      isExecuteQue := false;
      queue := [];
      threadIntervalEvent := false;
      events := events + [Status("title", Some("")), Status("status", Some("connection end"))];
    }

    /** `APPLY_CONFIG` */
    method ApplyConfig(cfg: Config, fetched: seq<Comment>)
      modifies this
      ensures Snapshot() == ApplyConfigState(old(Snapshot()), cfg, fetched)
    {
      var isChangedUrl := config.url != cfg.url;
      config := cfg;
      if config.dispType == 1 {
        if !serverCreated { return; }
        events := events + [ResetOverlay(config.initMessage)];
      }
      if isChangedUrl && config.url != "" {
        SwitchThread(fetched);
      }
    }

    /** The URL branch of `APPLY_CONFIG`, after the new thread was fetched. */
    method SwitchThread(fetched: seq<Comment>)
      modifies this
      ensures Snapshot() == NewThread(old(Snapshot()), fetched)
    {
      var ret := fetched;
      if |ret| == 0 {
        events := events + [Alert(BadUrlAlert)];
        return;
      }
      threadNumber := NumberOf(ret[|ret| - 1]);
      events := events + [Broadcast([ret[|ret| - 1]])];
      events := events + [Status("title", ret[0].threadTitle)];
    }

    /** The loop of a later poll that queues each fetched item whose number is not queued yet. */
    method QueueNew(items: seq<Comment>)
      modifies this
      ensures Snapshot() == old(Snapshot()).(queue := Deduped(old(queue), items))
    {
      ghost var q0 := queue;
      for i := 0 to |items|
        invariant queue == Deduped(q0, items[..i])
        invariant Snapshot() == old(Snapshot()).(queue := queue)
      {
        var item := items[i];
        if !Queued(queue, item.number) {
          queue := queue + [item];
        }
        assert items[..i + 1][..i] == items[..i];
      }
      assert items[..|items|] == items;
    }

    /** The part of `getResInterval` between the fetch and the thread checks. */
    method ReceiveResponses(fetched: seq<Comment>)
      modifies this
      ensures Snapshot() == Receive(old(Snapshot()), fetched)
    {
      var isFirst := !Truthy(threadNumber);
      var resNum := if isFirst then NaN else threadNumber;
      var result := fetched;
      if isFirst && |result| > 0 {
        events := events + [Status("title", result[0].threadTitle)];
      }
      if Truthy(resNum) {
        result := KeepNewer(result, resNum);
      }
      if |result| > 0 && result[|result| - 1].HasNumber() {
        threadNumber := NumberOf(result[|result| - 1]);
        if isFirst {
          var temp := result;
          if !config.dispSort {
            temp := Reverse(temp);
          }
          events := events + [ChatWindow(temp)];
        } else {
          QueueNew(result);
        }
        events := events + [Status("status", Some(OkStatus(threadNumber)))];
      } else if |result| > 0 {
        events := events + [Status("status", Some("error!")), ChatWindow(result)];
      }
    }

    /** `checkAutoMoveThread`, with the guard corrected (see `MoveGuardAsWritten`); `threadList` is the board's thread list. */
    method CheckAutoMoveThread(threadList: seq<ThreadInfo>)
      modifies this
      ensures Snapshot() == AutoMove(old(Snapshot()), threadList)
    {
      if !config.moveThread { return; }
      if !AtLeast(threadNumber, 1000) { return; }
      var threadUrl := config.url;
      var target := FirstCandidate(threadList, threadUrl);
      if target.None? { return; }
      var t := threadList[target.value];
      queue := queue + [SystemComment(MoveNotice(t.name))];
      config := config.(url := t.url);
      threadNumber := Int(0);
      events := events + [SaveConfig(config)];
    }

    /** `notifyThreadResLimit` */
    method NotifyThreadResLimit()
      modifies this
      ensures Snapshot() == NotifyLimit(old(Snapshot()))
    {
      if config.notifyThreadResLimit > 0 && AtLeast(threadNumber, config.notifyThreadResLimit) {
        events := events + [ChatWindow([SystemComment(LimitNotice(config.notifyThreadResLimit))])];
      }
    }

    /** One step of `getResInterval(exeId)`; `again` says whether it schedules the next one. */
    method PollTick(exeId: int, fetched: seq<Comment>, threadList: seq<ThreadInfo>) returns (again: bool)
      modifies this
      ensures Snapshot() == Poll(old(Snapshot()), exeId, fetched, threadList)
      ensures again == PollContinues(Snapshot(), exeId)
    {
      if config.url == "" && threadIntervalEvent && exeId == serverId {
        again := true;
        return;
      }
      ReceiveResponses(fetched);
      CheckAutoMoveThread(threadList);
      NotifyThreadResLimit();
      again := threadIntervalEvent && exeId == serverId;
    }

    /** One step of `taskScheduler(exeId)`. */
    method PresentTick(exeId: int) returns (again: bool)
      modifies this
      ensures Snapshot() == Present(old(Snapshot()))
      ensures again == QueueContinues(Snapshot(), exeId)
    {
      if |queue| > 0 {
        if config.commentProcessType == 0 {
          var temp := queue;
          queue := [];
          if !config.dispSort {
            temp := Reverse(temp);
          }
          events := events + [Broadcast(temp)];
          if config.translate.enable {
            translateQueue := translateQueue + temp;
          }
        } else {
          var comment := queue[0];
          queue := queue[1..];
          events := events + [Broadcast([comment])];
          if config.translate.enable {
            translateQueue := translateQueue + [comment];
          }
        }
      }
      again := isExecuteQue && exeId == serverId;
    }

    /** One step of `translateTaskScheduler(exeId)`. */
    method TranslateTick(exeId: int, isNihongo: string -> bool, translator: (string, string) -> Option<string>,
                         escape: string -> string, unescape: string -> string) returns (again: bool)
      modifies this
      ensures Snapshot() == TranslateStep(old(Snapshot()), isNihongo, translator, escape, unescape)
      ensures again == QueueContinues(Snapshot(), exeId)
    {
      if |translateQueue| > 0 {
        var comment := translateQueue[0];
        translateQueue := translateQueue[1..];
        var lang := config.translate.targetLang;
        if (lang == "ja" && !isNihongo(comment.text)) || lang == "en" {
          var outcome := translator(unescape(TranslationSource(comment.text)), lang);
          var dom := TranslateWindowDom(comment, config, outcome, escape);
          if dom.Some? {
            events := events + [TranslateWindow(dom.value)];
          }
        }
      }
      again := isExecuteQue && exeId == serverId;
    }
  }

  // ---------------------------------------------------------------------------
  // properties of the poller

  lemma {:induction false} SubsequenceMembers<T>(a: seq<T>, b: seq<T>)
    requires IsSubsequence(a, b)
    ensures forall x :: x in a ==> x in b
    decreases |b|
  {
    if a != [] {
      var b' := b[..|b| - 1];
      assert b == b' + [b[|b| - 1]];
      if a[|a| - 1] == b[|b| - 1] && IsSubsequence(a[..|a| - 1], b') {
        SubsequenceMembers(a[..|a| - 1], b');
        assert a == a[..|a| - 1] + [a[|a| - 1]];
      } else {
        SubsequenceMembers(a, b');
      }
    }
  }

  /** The entries queued before a later poll stay where they were. */
  lemma {:induction false} DedupedKeepsQueue(queue: seq<Comment>, items: seq<Comment>)
    ensures |Deduped(queue, items)| >= |queue| && Deduped(queue, items)[..|queue|] == queue
    decreases |items|
  {
    if items != [] {
      var q := Deduped(queue, items[..|items| - 1]);
      DedupedKeepsQueue(queue, items[..|items| - 1]);
      assert (q + [items[|items| - 1]])[..|queue|] == q[..|queue|];
    }
  }

  /** An appended item's number is not that of any entry before it. */
  lemma {:induction false} DedupedNewNumbers(queue: seq<Comment>, items: seq<Comment>)
    ensures var r := Deduped(queue, items);
      forall j, k :: |queue| <= j < |r| && 0 <= k < j ==> r[k].number != r[j].number
    decreases |items|
  {
    if items != [] {
      var q := Deduped(queue, items[..|items| - 1]);
      DedupedNewNumbers(queue, items[..|items| - 1]);
      DedupedKeepsQueue(queue, items[..|items| - 1]);
      var item := items[|items| - 1];
      if !Queued(q, item.number) {
        var r := q + [item];
        forall j, k | |queue| <= j < |r| && 0 <= k < j
          ensures r[k].number != r[j].number
        {
          if j == |q| {
            assert r[k] == q[k];
          } else {
            assert r[k] == q[k] && r[j] == q[j];
          }
        }
      }
    }
  }

  /** After a later poll every fetched item's number is queued: it was there already or its item was appended. */
  lemma {:induction false} DedupedCovers(queue: seq<Comment>, items: seq<Comment>)
    ensures forall k :: 0 <= k < |items| ==> Queued(Deduped(queue, items), items[k].number)
    decreases |items|
  {
    if items != [] {
      var init := items[..|items| - 1];
      var q := Deduped(queue, init);
      var item := items[|items| - 1];
      var r := Deduped(queue, items);
      DedupedCovers(queue, init);
      assert |r| >= |q| && r[..|q|] == q by {
        if !Queued(q, item.number) {
          assert r == q + [item];
          assert (q + [item])[..|q|] == q;
        }
      }
      forall k | 0 <= k < |items|
        ensures Queued(r, items[k].number)
      {
        if k < |init| {
          assert init[k] == items[k];
          var m :| 0 <= m < |q| && q[m].number == init[k].number;
          assert r[m] == q[m];
        } else if !Queued(q, item.number) {
          assert r[|q|] == item;
        }
      }
    }
  }

  /** The appended items are fetched items, in fetch order. */
  lemma {:induction false} DedupedFromItems(queue: seq<Comment>, items: seq<Comment>)
    ensures |Deduped(queue, items)| >= |queue|
    ensures IsSubsequence(Deduped(queue, items)[|queue|..], items)
    decreases |items|
  {
    DedupedKeepsQueue(queue, items);
    if items != [] {
      var init := items[..|items| - 1];
      var q := Deduped(queue, init);
      var item := items[|items| - 1];
      DedupedFromItems(queue, init);
      DedupedKeepsQueue(queue, init);
      var a := q[|queue|..];
      if !Queued(q, item.number) {
        var a' := (q + [item])[|queue|..];
        assert a' == a + [item];
        assert a'[..|a'| - 1] == a;
      }
    }
  }

  /**
   * A later poll (a truthy cursor `N`) keeps the queued entries and appends
   * only fetched items that have no number or a number past `N`, in fetch
   * order, none with a number already queued before it.
   */
  lemma LaterPollQueuesNewItems(s: State, fetched: seq<Comment>)
    requires Truthy(s.threadNumber)
    ensures var r := Receive(s, fetched);
      |r.queue| >= |s.queue| && r.queue[..|s.queue|] == s.queue
      && IsSubsequence(r.queue[|s.queue|..], fetched)
      && (forall c :: c in r.queue[|s.queue|..] ==> c in fetched && Newer(c, s.threadNumber))
      && (forall j, k :: |s.queue| <= j < |r.queue| && 0 <= k < j ==> r.queue[k].number != r.queue[j].number)
  {
    var result := KeepNewer(fetched, s.threadNumber);
    var r := Receive(s, fetched);
    if |result| > 0 && result[|result| - 1].HasNumber() {
      DedupedKeepsQueue(s.queue, result);
      DedupedFromItems(s.queue, result);
      DedupedNewNumbers(s.queue, result);
      SubsequenceMembers(r.queue[|s.queue|..], result);
      SubsequenceTrans(r.queue[|s.queue|..], result, fetched);
    } else {
      assert r.queue[|s.queue|..] == [];
    }
  }

  lemma {:induction false} SubsequenceTrans<T>(a: seq<T>, b: seq<T>, c: seq<T>)
    requires IsSubsequence(a, b) && IsSubsequence(b, c)
    ensures IsSubsequence(a, c)
    decreases |c|
  {
    if a != [] {
      var c' := c[..|c| - 1];
      if b[|b| - 1] == c[|c| - 1] && IsSubsequence(b[..|b| - 1], c') {
        if a[|a| - 1] == b[|b| - 1] && IsSubsequence(a[..|a| - 1], b[..|b| - 1]) {
          SubsequenceTrans(a[..|a| - 1], b[..|b| - 1], c');
        } else {
          SubsequenceTrans(a, b[..|b| - 1], c');
        }
      } else {
        SubsequenceTrans(a, b, c');
      }
    }
  }

  /**
   * The cursor after a poll is the number of the last item kept, whatever
   * the other numbers are. A non-empty result whose last item has no number
   * (the fetch's error message) leaves the cursor and the queue alone and
   * ends with the error status and that result in the chat window. A poll
   * never changes the configuration, the translation queue or the session.
   */
  lemma CursorRule(s: State, fetched: seq<Comment>)
    ensures var r := Receive(s, fetched); var result := PollResult(s, fetched);
      r.config == s.config && r.translateQueue == s.translateQueue && r.serverId == s.serverId
      && r.threadIntervalEvent == s.threadIntervalEvent && r.isExecuteQue == s.isExecuteQue
      && (|result| > 0 && result[|result| - 1].HasNumber() ==> r.threadNumber == NumberOf(result[|result| - 1]))
      && (|result| > 0 && !result[|result| - 1].HasNumber() ==>
            r.threadNumber == s.threadNumber && r.queue == s.queue
            && |r.events| >= 2 && r.events[|r.events| - 2..] == [Status("status", Some("error!")), ChatWindow(result)])
      && (result == [] ==> r.threadNumber == s.threadNumber && r.queue == s.queue)
  {
  }

  /**
   * A first poll (a falsy cursor) that succeeds shows the whole fetch in the
   * chat window, newest first unless sorted ascending, and queues nothing.
   */
  lemma FirstPollShowsAll(s: State, fetched: seq<Comment>)
    requires !Truthy(s.threadNumber) && |fetched| > 0 && fetched[|fetched| - 1].HasNumber()
    ensures var r := Receive(s, fetched); var shown := FirstShown(fetched, s.config.dispSort);
      r.queue == s.queue
      && r.events == s.events + [Status("title", fetched[0].threadTitle), ChatWindow(shown), Status("status", Some(OkStatus(r.threadNumber)))]
      && multiset(shown) == multiset(fetched)
      && (if s.config.dispSort then shown == fetched else Reverse(shown) == fetched)
  {
    var shown := FirstShown(fetched, s.config.dispSort);
    var n := NumberOf(fetched[|fetched| - 1]);
    var title := Status("title", fetched[0].threadTitle);
    var ok := Status("status", Some(OkStatus(n)));
    assert PollResult(s, fetched) == fetched;
    assert Receive(s, fetched) == s.(threadNumber := n, events := s.events + [title] + [ChatWindow(shown)] + [ok]);
    assert s.events + [title] + [ChatWindow(shown)] + [ok] == s.events + [title, ChatWindow(shown), ok];
    FirstShownPermutes(fetched, s.config.dispSort);
  }

  /** The first poll's display order is the fetch order or its reverse, a permutation either way. */
  lemma FirstShownPermutes(result: seq<Comment>, dispSort: bool)
    ensures multiset(FirstShown(result, dispSort)) == multiset(result)
    ensures if dispSort then FirstShown(result, dispSort) == result else Reverse(FirstShown(result, dispSort)) == result
  {
    ReversePermutes(result);
    ReverseInvolution(result);
  }

  /** A poll without a URL in the current session changes nothing and goes on waiting. */
  lemma WaitingPollIdles(s: State, exeId: int, fetched: seq<Comment>, threadList: seq<ThreadInfo>)
    requires s.config.url == "" && s.threadIntervalEvent && exeId == s.serverId
    ensures Poll(s, exeId, fetched, threadList) == s && PollContinues(s, exeId)
  {
  }

  // ---------------------------------------------------------------------------
  // properties of the thread checks

  /**
   * Auto-move does nothing unless it is enabled and the cursor is at least
   * 1000. Otherwise it picks the first listed thread that is not the current
   * one and has fewer than 1000 responses; if there is one, exactly one
   * system comment is queued, the URL (and nothing else of the
   * configuration) becomes the target's, the cursor becomes 0 and the
   * configuration is saved; if there is none, nothing changes.
   */
  lemma AutoMoveRule(s: State, threadList: seq<ThreadInfo>)
    ensures !(s.config.moveThread && AtLeast(s.threadNumber, 1000)) ==> AutoMove(s, threadList) == s
    ensures MoveGuard(s) && FirstCandidate(threadList, s.config.url).None? ==> AutoMove(s, threadList) == s
    ensures MoveGuard(s) && FirstCandidate(threadList, s.config.url).Some? ==>
      var i := FirstCandidate(threadList, s.config.url).value; var t := threadList[i]; var r := AutoMove(s, threadList);
      IsCandidate(t, s.config.url) && (forall j :: 0 <= j < i ==> !IsCandidate(threadList[j], s.config.url))
      && r.queue == s.queue + [SystemComment(MoveNotice(t.name))]
      && r.config == s.config.(url := t.url) && r.config.url != s.config.url
      && r.threadNumber == Int(0)
      && r.events == s.events + [SaveConfig(r.config)]
      && r.translateQueue == s.translateQueue && r.serverId == s.serverId
  {
  }

  /** After a move the cursor is 0, so the response-limit notice does not follow it. */
  lemma MovedThreadNotNotified(s: State, threadList: seq<ThreadInfo>)
    requires MoveGuard(s) && FirstCandidate(threadList, s.config.url).Some?
    ensures NotifyLimit(AutoMove(s, threadList)) == AutoMove(s, threadList)
  {
  }

  /**
   * The notice goes to the chat window alone, once per poll, exactly when a
   * positive limit is set and the cursor has reached it; a `NaN` cursor is
   * never past a limit. Only the trace changes.
   */
  lemma NotifyRule(s: State)
    ensures LimitReached(s) ==>
      NotifyLimit(s) == s.(events := s.events + [ChatWindow([SystemComment(LimitNotice(s.config.notifyThreadResLimit))])])
    ensures !LimitReached(s) ==> NotifyLimit(s) == s
    ensures s.threadNumber.NaN? ==> NotifyLimit(s) == s
  {
  }

  /** With a numeric cursor the guard as written and the intended one agree. */
  lemma GuardsAgreeOnNumbers(s: State)
    requires s.threadNumber.Int?
    ensures MoveGuardAsWritten(s) <==> MoveGuard(s)
  {
  }

  /**
   * The guard as written lets a `NaN` cursor through: switching to a URL
   * whose fetch yields only the error message (a response without a number)
   * leaves the cursor `NaN`, a poll answered the same way keeps it, and the
   * thread check as written then moves to another thread although no
   * response count was ever read; the intended guard stays put.
   */
  lemma NaNCursorMovesThread(s: State, cfg: Config, err: Comment, threadList: seq<ThreadInfo>)
    requires s.serverCreated && s.config.url != cfg.url && cfg.url != "" && cfg.moveThread
    requires err.number.None?
    requires FirstCandidate(threadList, cfg.url).Some?
    ensures var s1 := ApplyConfigState(s, cfg, [err]); var s2 := Receive(s1, [err]);
      s1.threadNumber == NaN && s2.threadNumber == NaN
      && AutoMoveAsWritten(s2, threadList).config.url != cfg.url
      && AutoMove(s2, threadList) == s2
  {
    var s1 := ApplyConfigState(s, cfg, [err]);
    assert s1.threadNumber == NaN && s1.config == cfg;
    var s2 := Receive(s1, [err]);
    assert PollResult(s1, [err]) == [err];
    assert s2.threadNumber == NaN && s2.config == cfg;
  }

  // ---------------------------------------------------------------------------
  // properties of the presenter and the translator

  /**
   * Batch mode empties the queue and sends its former contents at once,
   * reversed exactly when newest comes first; with translation on, the
   * translation queue gains that same sequence.
   */
  lemma BatchRule(s: State)
    requires |s.queue| > 0 && s.config.commentProcessType == 0
    ensures var r := Present(s); var sent := Batch(s.queue, s.config.dispSort);
      r.queue == [] && r.events == s.events + [Broadcast(sent)]
      && multiset(sent) == multiset(s.queue)
      && (if s.config.dispSort then sent == s.queue else Reverse(sent) == s.queue)
      && r.translateQueue == (if s.config.translate.enable then s.translateQueue + sent else s.translateQueue)
      && r.config == s.config && r.threadNumber == s.threadNumber && r.serverId == s.serverId
  {
    ReversePermutes(s.queue);
    ReverseInvolution(s.queue);
  }

  /** Single mode sends and removes exactly the head; the rest stays in order. */
  lemma SingleRule(s: State)
    requires |s.queue| > 0 && s.config.commentProcessType != 0
    ensures var r := Present(s);
      [s.queue[0]] + r.queue == s.queue && r.events == s.events + [Broadcast([s.queue[0]])]
      && r.translateQueue == (if s.config.translate.enable then s.translateQueue + [s.queue[0]] else s.translateQueue)
      && r.config == s.config && r.threadNumber == s.threadNumber && r.serverId == s.serverId
  {
  }

  lemma PresentIdle(s: State)
    requires s.queue == []
    ensures Present(s) == s
  {
  }

  /**
   * A translation step removes exactly the head of a non-empty translation
   * queue and never puts it back. It sends at most one fragment: none when
   * the language gate is closed or the translation is empty, the error
   * notice when the translator failed, and otherwise a fragment holding
   * the escaped translation. Nothing else changes.
   */
  lemma TranslateRule(s: State, isNihongo: string -> bool, translator: (string, string) -> Option<string>,
                      escape: string -> string, unescape: string -> string)
    requires |s.translateQueue| > 0
    ensures var r := TranslateStep(s, isNihongo, translator, escape, unescape);
      var c := s.translateQueue[0]; var lang := s.config.translate.targetLang;
      var outcome := translator(unescape(TranslationSource(c.text)), lang);
      r.(events := s.events) == s.(translateQueue := s.translateQueue[1..])
      && (!TranslateGate(lang, isNihongo, c.text) ==> r.events == s.events)
      && (TranslateGate(lang, isNihongo, c.text) && outcome.None? ==> r.events == s.events + [TranslateWindow(TranslationError)])
      && (TranslateGate(lang, isNihongo, c.text) && outcome == Some("") ==> r.events == s.events)
      && (TranslateGate(lang, isNihongo, c.text) && outcome.Some? && outcome.value != "" ==>
            |r.events| == |s.events| + 1 && r.events[..|s.events|] == s.events
            && r.events[|s.events|].TranslateWindow? && Contains(r.events[|s.events|].dom, escape(outcome.value)))
  {
  }

  /** Only Japanese and English are translation targets. */
  lemma TranslateGateLanguages(lang: string, isNihongo: string -> bool, text: string)
    ensures lang != "ja" && lang != "en" ==> !TranslateGate(lang, isNihongo, text)
    ensures lang == "ja" ==> (TranslateGate(lang, isNihongo, text) <==> !isNihongo(text))
    ensures lang == "en" ==> TranslateGate(lang, isNihongo, text)
  {
  }

  lemma TranslateIdle(s: State, isNihongo: string -> bool, translator: (string, string) -> Option<string>,
                      escape: string -> string, unescape: string -> string)
    requires s.translateQueue == []
    ensures TranslateStep(s, isNihongo, translator, escape, unescape) == s
  {
  }

  // ---------------------------------------------------------------------------
  // the session generation

  /** No poll changes the session id or the two loop flags. */
  lemma PollKeepsGeneration(s: State, exeId: int, fetched: seq<Comment>, threadList: seq<ThreadInfo>)
    ensures var p := Poll(s, exeId, fetched, threadList);
      p.serverId == s.serverId && p.threadIntervalEvent == s.threadIntervalEvent && p.isExecuteQue == s.isExecuteQue
  {
    if !WaitsForUrl(s, exeId) {
      var r := Receive(s, fetched);
      CursorRule(s, fetched);
      var m := AutoMove(r, threadList);
      assert m.serverId == s.serverId && m.threadIntervalEvent == s.threadIntervalEvent && m.isExecuteQue == s.isExecuteQue;
    }
  }

  /** Neither queue step changes the session id or the two loop flags. */
  lemma QueueStepsKeepGeneration(s: State, isNihongo: string -> bool, translator: (string, string) -> Option<string>,
                                 escape: string -> string, unescape: string -> string)
    ensures var q := Present(s);
      q.serverId == s.serverId && q.threadIntervalEvent == s.threadIntervalEvent && q.isExecuteQue == s.isExecuteQue
    ensures var t := TranslateStep(s, isNihongo, translator, escape, unescape);
      t.serverId == s.serverId && t.threadIntervalEvent == s.threadIntervalEvent && t.isExecuteQue == s.isExecuteQue
  {
  }

  /**
   * Stopping a created server keeps the session id, empties the comment
   * queue (not the translation queue) and ends every loop at its next step,
   * whatever its id. Before the first START it changes nothing.
   */
  lemma StopEndsLoops(s: State, exeId: int, fetched: seq<Comment>, threadList: seq<ThreadInfo>,
                      isNihongo: string -> bool, translator: (string, string) -> Option<string>,
                      escape: string -> string, unescape: string -> string)
    ensures !s.serverCreated ==> StopState(s) == s
    ensures s.serverCreated ==> var t := StopState(s);
      t.serverId == s.serverId && t.queue == [] && t.translateQueue == s.translateQueue
      && !PollContinues(Poll(t, exeId, fetched, threadList), exeId)
      && !QueueContinues(Present(t), exeId)
      && !QueueContinues(TranslateStep(t, isNihongo, translator, escape, unescape), exeId)
  {
    PollKeepsGeneration(StopState(s), exeId, fetched, threadList);
    QueueStepsKeepGeneration(StopState(s), isNihongo, translator, escape, unescape);
  }

  /**
   * A restart with a new id retires the loops of the earlier session after
   * their next step, while the loops launched with the new id go on.
   */
  lemma RestartRetiresOldLoops(s: State, cfg: Config, now: int, exeId: int, fetched: seq<Comment>,
                               threadList: seq<ThreadInfo>, isNihongo: string -> bool,
                               translator: (string, string) -> Option<string>,
                               escape: string -> string, unescape: string -> string)
    requires exeId != now
    ensures var t := StartState(s, cfg, now);
      t.threadNumber == Int(0) && t.queue == [] && t.threadConnectionError == 0
      && !PollContinues(Poll(t, exeId, fetched, threadList), exeId)
      && !QueueContinues(Present(t), exeId)
      && !QueueContinues(TranslateStep(t, isNihongo, translator, escape, unescape), exeId)
      && PollContinues(Poll(t, now, fetched, threadList), now)
      && QueueContinues(Present(t), now)
      && QueueContinues(TranslateStep(t, isNihongo, translator, escape, unescape), now)
  {
    var t := StartState(s, cfg, now);
    PollKeepsGeneration(t, exeId, fetched, threadList);
    PollKeepsGeneration(t, now, fetched, threadList);
    QueueStepsKeepGeneration(t, isNihongo, translator, escape, unescape);
  }

  /**
   * Applying a configuration replaces it and never touches the queues.
   * With overlay display (`dispType` 1) before the first START the overlay
   * reset throws and nothing else happens. Otherwise only a change to a
   * non-empty URL fetches: an empty answer raises the alert and leaves the
   * cursor, and otherwise the cursor becomes the last response's number and
   * that response alone is broadcast.
   */
  lemma ApplyConfigRule(s: State, cfg: Config, fetched: seq<Comment>)
    ensures var r := ApplyConfigState(s, cfg, fetched);
      r.config == cfg && r.queue == s.queue && r.translateQueue == s.translateQueue && r.serverId == s.serverId
    ensures cfg.dispType == 1 && !s.serverCreated ==> ApplyConfigState(s, cfg, fetched) == s.(config := cfg)
    ensures cfg.dispType != 1 || s.serverCreated ==>
      var r := ApplyConfigState(s, cfg, fetched);
      var e0 := s.events + (if cfg.dispType == 1 then [ResetOverlay(cfg.initMessage)] else []);
      (!(s.config.url != cfg.url && cfg.url != "") ==> r.threadNumber == s.threadNumber && r.events == e0)
      && (s.config.url != cfg.url && cfg.url != "" && fetched == [] ==>
            r.threadNumber == s.threadNumber && r.events == e0 + [Alert(BadUrlAlert)])
      && (s.config.url != cfg.url && cfg.url != "" && fetched != [] ==>
            r.threadNumber == NumberOf(fetched[|fetched| - 1])
            && r.events == e0 + [Broadcast([fetched[|fetched| - 1]]), Status("title", fetched[0].threadTitle)])
  {
  }
}
