/**
 * The renderer window's main reducer (`reducer/renderer/renderer.ts`): the
 * settings being edited, whether the server runs, and the status lines.
 * The reducer is generic in the settings record; the record the initial
 * state starts from is `Settings` below.
 */
module RendererStore {
  import opened Wrappers

  datatype StatusLine = StatusLine(message: string)

  datatype YoutubeStatus = YoutubeStatus(message: string, liveId: string)

  datatype StatusBoard = StatusBoard(bbs: seq<StatusLine>, youtube: YoutubeStatus, twitch: StatusLine, niconico: StatusLine)

  datatype RendererState<C> = RendererState(config: C, isRunning: bool, status: StatusBoard)

  /**
   * The actions of `actions/renderer.ts`; `Unrelated` stands for any other
   * action the store dispatches (the dialog's, for one).
   */
  datatype RendererAction<C> =
    | UpdateConfig(config: C)
    | StartServer(startConfig: C)
    | StopServer
    | ApplyConfig(appliedConfig: C)
    | UpdateRunningState(isRunning: bool)
    | Unrelated

  /** The settings fields that the initial state spells out. */
  datatype Settings = Settings(
    url: string, resNumber: string, initMessage: string, port: int, dispNumber: int, interval: int,
    youtubeId: string, twitchId: string, niconicoId: string,
    dispSort: bool, newLine: bool, showIcon: bool, showNumber: bool, showName: bool, showTime: bool,
    wordBreak: bool, thumbnail: int, sePath: string, playSe: bool, playSeVolume: int,
    typeYomiko: string, tamiyasuPath: string, bouyomiPort: int, bouyomiVolume: int,
    notifyThreadConnectionErrorLimit: int, notifyThreadResLimit: int, commentProcessType: int, dispType: int)

  function DefaultSettings(): (r: Settings) {
    Settings("", "", "", 3000, 0, 1000, "", "", "", true, true, true, true, true, true,
             true, 0, "", true, 50, "none", "", 0, 50, 0, 0, 0, 0)
  }

  /** Every status line starts as `none`; the BBS has one line. */
  function InitialStatus(): (r: StatusBoard) {
    StatusBoard([StatusLine("none")], YoutubeStatus("none", "none"), StatusLine("none"), StatusLine("none"))
  }

  function InitialState(): (s: RendererState<Settings>)
    ensures !s.isRunning
    ensures |s.status.bbs| == 1 && s.status.bbs[0].message == "none"
    ensures s.status.youtube.message == "none" && s.status.youtube.liveId == "none"
    ensures s.status.twitch.message == "none" && s.status.niconico.message == "none"
    ensures s.config.url == "" && s.config.port == 3000 && s.config.typeYomiko == "none"
  {
    RendererState(DefaultSettings(), false, InitialStatus())
  }

  /** `renderer(state, action)` */
  function Renderer<C>(state: RendererState<C>, action: RendererAction<C>): (r: RendererState<C>)
    ensures action.UpdateConfig? ==> r.config == action.config && r.isRunning == state.isRunning && r.status == state.status
    ensures action.UpdateRunningState? ==> r.isRunning == action.isRunning && r.config == state.config && r.status == state.status
    ensures !action.UpdateConfig? && !action.UpdateRunningState? ==> r == state
  {
    match action
    case UpdateConfig(config) => state.(config := config)
    case UpdateRunningState(isRunning) => state.(isRunning := isRunning)
    case _ => state
  }

  /** The store's first call passes no state: the initial one is used. */
  function RendererFrom(state: Option<RendererState<Settings>>, action: RendererAction<Settings>): (r: RendererState<Settings>)
    ensures state.None? ==> r == Renderer(InitialState(), action)
    ensures state.None? && action.UpdateRunningState? ==> r == InitialState().(isRunning := action.isRunning)
    ensures state.None? && action.UpdateConfig? ==> r == InitialState().(config := action.config)
    ensures state.None? && !action.UpdateRunningState? && !action.UpdateConfig? ==> r == InitialState()
    ensures state.Some? ==> r == Renderer(state.value, action)
  {
    Renderer(state.GetOr(InitialState()), action)
  }

  /** Dispatching the same action twice is dispatching it once. */
  lemma RendererIdempotent<C>(state: RendererState<C>, action: RendererAction<C>)
    ensures Renderer(Renderer(state, action), action) == Renderer(state, action)
  {
  }

  /** A settings update and a running-state update touch different fields, so their order does not matter. */
  lemma UpdatesCommute<C>(state: RendererState<C>, config: C, isRunning: bool)
    ensures Renderer(Renderer(state, UpdateConfig(config)), UpdateRunningState(isRunning))
         == Renderer(Renderer(state, UpdateRunningState(isRunning)), UpdateConfig(config))
  {
  }

  /** A later settings update overrides an earlier one. */
  lemma LastConfigWins<C>(state: RendererState<C>, first: C, second: C)
    ensures Renderer(Renderer(state, UpdateConfig(first)), UpdateConfig(second)) == Renderer(state, UpdateConfig(second))
  {
  }
}
