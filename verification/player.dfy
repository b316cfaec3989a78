/**
 * The playback controller (`VideoPlayer` in src/components/VideoPlayer.jsx):
 * navigation over a playlist of clips, loop enforcement inside each clip's
 * [start, end] window, and teardown. The external YouTube player is replaced
 * by the log of the calls made on it.
 */
module Player {
  import opened Wrappers
  import opened VideoIds
  import ApiLoader

  /** A playlist entry `{link, start, end}`, times in seconds. */
  datatype Clip = Clip(link: string, start: real, end: real)

  /** The `playerVars` given to `new YT.Player` (the page origin is left out). */
  datatype PlayerVars = PlayerVars(
    start: real, end: real,
    modestBranding: nat, rel: nat, enableJsApi: nat, playsInline: nat,
    autoplay: nat, controls: nat, loop: nat)

  /** The calls made on the external player, in the order they are issued. */
  datatype Command =
    | Construct(videoId: string, vars: PlayerVars)
    | LoadVideoById(videoId: string, startSeconds: real, endSeconds: real)
    | SeekTo(seconds: real)
    | PlayVideo
    | Destroy

  /** `YT.PlayerState`, as reported to `onStateChange`. */
  datatype PlayerState = Unstarted | Ended | Playing | Paused | Buffering | Cued

  /** The options the player is built with for the first clip. */
  function InitialVars(clip: Clip): (v: PlayerVars)
    ensures v.start == clip.start && v.end == clip.end
    ensures v.autoplay == 1 && v.controls == 1 && v.loop == 1 && v.rel == 0
    ensures v.modestBranding == 1 && v.enableJsApi == 1 && v.playsInline == 1
  {
    PlayerVars(clip.start, clip.end, 1, 0, 1, 1, 1, 1, 1)
  }

  // ---------------------------------------------------------------------
  // Pure decisions

  /**
   * `handleVideoLoop`, given what it reads: whether a player exists, the
   * ready flag, the player's current time and the clip it treats as current.
   * Past the clip's end it seeks back to the clip's start and plays.
   */
  function LoopCommands(hasPlayer: bool, ready: bool, currentTime: real, clip: Clip): (cmds: seq<Command>)
    ensures cmds == [] || cmds == [SeekTo(clip.start), PlayVideo]
    ensures cmds != [] <==> hasPlayer && ready && currentTime >= clip.end
  {
    if !hasPlayer || !ready then []
    else if currentTime >= clip.end then [SeekTo(clip.start), PlayVideo]
    else []
  }

  /**
   * The `onStateChange` handler for the clip it treats as current: only the
   * ENDED state restarts the clip; PLAYING, PAUSED and the others do nothing.
   */
  function StateChangeCommands(mounted: bool, state: PlayerState, clip: Clip): (cmds: seq<Command>)
    ensures cmds != [] <==> mounted && state == Ended
    ensures cmds != [] ==> cmds == [SeekTo(clip.start), PlayVideo]
  {
    if mounted && state == Ended then [SeekTo(clip.start), PlayVideo] else []
  }

  /**
   * The call `loadVideo` makes for a clip: `loadVideoById` with the id read
   * from the clip's link and the clip's window, or none when the link yields
   * no usable id.
   */
  function LoadCommand(clip: Clip): (cmd: Option<Command>)
    ensures cmd.Some? <==> GetVideoId(clip.link).Id? && GetVideoId(clip.link).value != []
    ensures cmd.Some? ==> cmd.value == LoadVideoById(GetVideoId(clip.link).value, clip.start, clip.end)
  {
    match UsableId(GetVideoId(clip.link))
    case Some(id) => Some(LoadVideoById(id, clip.start, clip.end))
    case None => None
  }

  /** The index `handlePrevious` loads, if any. */
  function PreviousTarget(index: nat): (t: Option<nat>)
    ensures t.None? <==> index == 0
    ensures t.Some? ==> t.value < index
    ensures t.Some? ==> t.value + 1 == index
  {
    if index > 0 then Some(index - 1) else None
  }

  /** The index `handleNext` loads, if any, in a playlist of `count` clips. */
  function NextTarget(index: nat, count: nat): (t: Option<nat>)
    requires index < count
    ensures t.None? <==> index == count - 1
    ensures t.Some? ==> index < t.value < count
    ensures t.Some? ==> t.value == index + 1
  {
    if index < count - 1 then Some(index + 1) else None
  }

  /** Next then previous, or previous then next, comes back to the same clip. */
  lemma NavigationInverse(index: nat, count: nat)
    requires index < count
    ensures NextTarget(index, count).Some? ==> PreviousTarget(NextTarget(index, count).value) == Some(index)
    ensures PreviousTarget(index).Some? ==> NextTarget(PreviousTarget(index).value, count) == Some(index)
  {
  }

  // ---------------------------------------------------------------------
  // Loop enforcement on a minimal model of the external player

  /** What loop enforcement changes on the player: its position and whether it plays. */
  datatype PlayerView = PlayerView(position: real, playing: bool)

  /** The effect of `seekTo` and `playVideo` on the player; other calls are not modelled here. */
  function Apply(v: PlayerView, cmds: seq<Command>): PlayerView
    decreases |cmds|
  {
    if cmds == [] then v
    else
      var next := match cmds[0]
        case SeekTo(t) => v.(position := t)
        case PlayVideo => v.(playing := true)
        case _ => v;
      Apply(next, cmds[1..])
  }

  /** Seeking to `t` and playing leaves the player at `t`, playing. */
  lemma ApplyRestart(v: PlayerView, t: real)
    ensures Apply(v, [SeekTo(t), PlayVideo]) == PlayerView(t, true)
  {
    assert [SeekTo(t), PlayVideo][1..] == [PlayVideo];
    assert [PlayVideo][1..] == [];
  }

  /** `n` enforcement checks of a ready player in immediate succession, each reading the player's position. */
  function Enforce(v: PlayerView, clip: Clip, n: nat): PlayerView
    decreases n
  {
    if n == 0 then v
    else Enforce(Apply(v, LoopCommands(true, true, v.position, clip)), clip, n - 1)
  }

  /** A player at the clip's start, playing, stays there under any number of checks. */
  lemma {:induction false} EnforceAtStart(clip: Clip, n: nat)
    ensures Enforce(PlayerView(clip.start, true), clip, n) == PlayerView(clip.start, true)
  {
    if n > 0 {
      var v := PlayerView(clip.start, true);
      ApplyRestart(v, clip.start);
      assert Apply(v, LoopCommands(true, true, v.position, clip)) == v;
      EnforceAtStart(clip, n - 1);
    }
  }

  /**
   * Loop enforcement is idempotent: once the position is at or past the
   * end, any number of checks leave the player at the clip's start, playing,
   * never past it.
   */
  lemma {:induction false} RepeatedEnforcement(v: PlayerView, clip: Clip, n: nat)
    requires n >= 1 && v.position >= clip.end
    ensures Enforce(v, clip, n) == PlayerView(clip.start, true)
  {
    ApplyRestart(v, clip.start);
    EnforceAtStart(clip, n - 1);
  }

  // ---------------------------------------------------------------------
  // The interval callback and the ENDED branch: as written and corrected

  /**
   * What one tick of the 1-second interval issues in the component as
   * written: the interval was created in the mount effect, so it calls the
   * `handleVideoLoop` of the first render, which reads that render's
   * `isPlayerReady` (false) and `currentIndex` (the initial index).
   */
  function PollAsWritten(videos: seq<Clip>, initialIndex: nat, mounted: bool, hasPlayer: bool, currentTime: real): (cmds: seq<Command>)
    requires initialIndex < |videos|
    ensures cmds == []
  {
    if mounted && hasPlayer then LoopCommands(hasPlayer, false, currentTime, videos[initialIndex]) else []
  }

  /**
   * One tick of the interval reading the live state: the ready flag and the
   * clip currently selected.
   */
  function PollCommands(videos: seq<Clip>, currentIndex: nat, mounted: bool, hasPlayer: bool, ready: bool, currentTime: real): (cmds: seq<Command>)
    requires currentIndex < |videos|
    ensures cmds != [] <==> mounted && hasPlayer && ready && currentTime >= videos[currentIndex].end
    ensures cmds != [] ==> cmds == [SeekTo(videos[currentIndex].start), PlayVideo]
  {
    if mounted && hasPlayer then LoopCommands(hasPlayer, ready, currentTime, videos[currentIndex]) else []
  }

  /** The ENDED branch as written restarts the clip of the first render. */
  function EndedAsWritten(videos: seq<Clip>, initialIndex: nat, mounted: bool, state: PlayerState): (cmds: seq<Command>)
    requires initialIndex < |videos|
    ensures cmds != [] ==> cmds[0] == SeekTo(videos[initialIndex].start)
  {
    StateChangeCommands(mounted, state, videos[initialIndex])
  }

  /** An example playlist of two clips: A is [0, 30], B is [10, 40]. */
  function ExamplePlaylist(): (videos: seq<Clip>)
    ensures |videos| == 2
  {
    [Clip(ShortLinkPrefix + "aaa", 0.0, 30.0), Clip(ShortLinkPrefix + "bbb", 10.0, 40.0)]
  }

  /** A clip whose link is a short link built from an id loads that id with the clip's window. */
  lemma ShortClipLoad(clip: Clip, id: string)
    requires IsIdText(id) && id != [] && clip.link == ShortLinkPrefix + id
    ensures UsableId(GetVideoId(clip.link)) == Some(id)
    ensures LoadCommand(clip) == Some(LoadVideoById(id, clip.start, clip.end))
  {
    ShortLinkRoundTrip(id, []);
    assert ShortLinkPrefix + id + [] == clip.link;
  }

  /** Both links of the example playlist are short links whose ids read back. */
  lemma ExampleIds()
    ensures UsableId(GetVideoId(ExamplePlaylist()[0].link)) == Some("aaa")
    ensures LoadCommand(ExamplePlaylist()[1]) == Some(LoadVideoById("bbb", 10.0, 40.0))
  {
    ShortClipLoad(ExamplePlaylist()[0], "aaa");
    ShortClipLoad(ExamplePlaylist()[1], "bbb");
  }

  /**
   * The interval as written never loops: with a ready player at 30 s into
   * clip A (end 30) it issues nothing, where the live state calls for a
   * seek to 0 and play.
   */
  lemma StalePollCounterexample()
    ensures PollAsWritten(ExamplePlaylist(), 0, true, true, 30.0) == []
    ensures PollCommands(ExamplePlaylist(), 0, true, true, true, 30.0) == [SeekTo(0.0), PlayVideo]
  {
  }

  /**
   * After navigating from clip A to clip B, the ENDED branch as written
   * seeks to A's start (0 s), outside B's window [10, 40].
   */
  lemma StaleEndedCounterexample()
    ensures EndedAsWritten(ExamplePlaylist(), 0, true, Ended) == [SeekTo(0.0), PlayVideo]
    ensures StateChangeCommands(true, Ended, ExamplePlaylist()[1]) == [SeekTo(10.0), PlayVideo]
  {
  }

  // ---------------------------------------------------------------------
  // The component

  class Controller {
    /** The `videos` prop. */
    const videos: seq<Clip>
    /** The `initialIndex` prop. */
    const initialIndex: nat
    /** The process-wide API loader and this component's waiter in it. */
    const loader: ApiLoader.Loader
    const waiter: ApiLoader.WaiterId

    /** The `currentIndex` state. */
    var currentIndex: nat
    /** The `isPlayerReady` state. */
    var isPlayerReady: bool
    /** `playerRef.current` is set (it is never reset to null). */
    var hasPlayer: bool
    /** The mount effect's `mounted` variable. */
    var mounted: bool
    /** `timeUpdateInterval` has been assigned. */
    var intervalStarted: bool
    /** The interval is running (started and not cleared). */
    var polling: bool
    /** The calls made on the player so far. */
    var commands: seq<Command>
    /** `initializePlayer` has resumed after awaiting the loader. */
    ghost var resumed: bool

    /**
     * The component's invariant: the index stays in the playlist, nothing
     * is issued before the player is built, the first call builds it, and
     * once unmounted the last call is the one and only `destroy`.
     */
    ghost predicate Valid()
      reads this
    {
      && initialIndex < |videos| && currentIndex < |videos|
      && (!resumed ==> !hasPlayer)
      && (!hasPlayer ==> currentIndex == initialIndex && commands == [] && !isPlayerReady && !intervalStarted)
      && (hasPlayer ==> |commands| > 0 && commands[0].Construct?)
      && (polling ==> intervalStarted && mounted)
      && (isPlayerReady ==> mounted && hasPlayer)
      && (intervalStarted ==> hasPlayer)
      && (mounted ==> Destroy !in commands)
      && (!mounted && hasPlayer ==>
            commands[|commands| - 1] == Destroy && Destroy !in commands[..|commands| - 1])
    }

    /**
     * Mounting the component: the first render, then the mount effect,
     * which asks the loader for the API on behalf of `waiter`.
     */
    constructor (videos: seq<Clip>, initialIndex: nat, loader: ApiLoader.Loader, waiter: ApiLoader.WaiterId)
      requires initialIndex < |videos|
      requires loader.Settled()
      modifies loader
      ensures Valid()
      ensures this.videos == videos && this.initialIndex == initialIndex
      ensures this.loader == loader && this.waiter == waiter
      ensures currentIndex == initialIndex && mounted && !resumed
      ensures !isPlayerReady && !hasPlayer && !intervalStarted && !polling && commands == []
      ensures loader.Settled() && loader.requests == old(loader.requests) + [waiter]
      ensures loader.scriptInserts == if old(loader.runtimePresent) then old(loader.scriptInserts) else 1
      ensures loader.runtimePresent == old(loader.runtimePresent)
      // With the runtime already on the page the request resolves at once; otherwise it waits in the queue.
      ensures old(loader.runtimePresent) ==> loader.resolved == old(loader.resolved) + [waiter]
      ensures !old(loader.runtimePresent) ==>
        loader.resolved == old(loader.resolved) && loader.apiReadyCallbacks == old(loader.apiReadyCallbacks) + [waiter]
    {
      this.videos := videos;
      this.initialIndex := initialIndex;
      this.loader := loader;
      this.waiter := waiter;
      currentIndex := initialIndex;
      isPlayerReady := false;
      hasPlayer := false;
      mounted := true;
      intervalStarted := false;
      polling := false;
      commands := [];
      resumed := false;
      new;
      var immediate := loader.LoadYouTubeAPI(waiter);
    }

    /**
     * `initializePlayer` after its `await`: unless unmounted meanwhile, read
     * the id of the first render's clip and build the player, or give up
     * (logging) when the link yields no usable id or `getVideoId` throws.
     */
    method InitializePlayer()
      requires Valid() && !resumed
      requires waiter in loader.resolved
      modifies this
      ensures Valid() && resumed
      ensures var id := UsableId(GetVideoId(videos[initialIndex].link));
        if old(mounted) && id.Some? then
          hasPlayer && commands == [Construct(id.value, InitialVars(videos[initialIndex]))]
        else
          !hasPlayer && commands == []
      ensures currentIndex == old(currentIndex) && mounted == old(mounted)
      ensures isPlayerReady == old(isPlayerReady) && polling == old(polling)
      ensures intervalStarted == old(intervalStarted)
    {
      resumed := true;
      if !mounted {
        return;
      }
      var clip := videos[initialIndex];
      var id := UsableId(GetVideoId(clip.link));
      if id.None? {
        return;
      }
      hasPlayer := true;
      commands := commands + [Construct(id.value, InitialVars(clip))];
    }

    /** The player's `onReady` event: mark ready and start the 1-second interval. */
    method OnReady()
      requires Valid() && hasPlayer
      modifies this
      ensures Valid()
      ensures isPlayerReady == (old(isPlayerReady) || old(mounted))
      ensures intervalStarted == (old(intervalStarted) || old(mounted))
      ensures polling == (old(polling) || old(mounted))
      ensures commands == old(commands) && currentIndex == old(currentIndex)
      ensures mounted == old(mounted) && hasPlayer
      ensures resumed == old(resumed)
    {
      if !mounted {
        return;
      }
      isPlayerReady := true;
      intervalStarted := true;
      polling := true;
    }

    /**
     * One firing of the interval, the player reporting `currentTime`. Loop
     * enforcement reads the live ready flag and the selected clip (see
     * `PollAsWritten` for what the written code reads).
     */
    method Tick(currentTime: real)
      requires Valid() && polling
      modifies this
      ensures Valid()
      ensures commands == old(commands) + PollCommands(videos, currentIndex, mounted, hasPlayer, isPlayerReady, currentTime)
      ensures currentIndex == old(currentIndex) && isPlayerReady == old(isPlayerReady)
      ensures mounted == old(mounted) && hasPlayer == old(hasPlayer)
      ensures polling == old(polling) && intervalStarted == old(intervalStarted)
      ensures resumed == old(resumed)
    {
      if mounted && hasPlayer {
        commands := commands + LoopCommands(hasPlayer, isPlayerReady, currentTime, videos[currentIndex]);
      }
    }

    /**
     * The player's `onStateChange` event. ENDED restarts the selected clip
     * (see `EndedAsWritten` for the clip the written code restarts).
     */
    method OnStateChange(state: PlayerState)
      requires Valid() && hasPlayer
      modifies this
      ensures Valid()
      ensures commands == old(commands) + StateChangeCommands(mounted, state, videos[currentIndex])
      ensures currentIndex == old(currentIndex) && isPlayerReady == old(isPlayerReady)
      ensures mounted == old(mounted) && hasPlayer == old(hasPlayer)
      ensures polling == old(polling) && intervalStarted == old(intervalStarted)
      ensures resumed == old(resumed)
    {
      if !mounted {
        return;
      }
      commands := commands + StateChangeCommands(mounted, state, videos[currentIndex]);
    }

    /**
     * `loadVideo(index)`: with a ready player and a usable id, issue one
     * `loadVideoById` with the clip's window and select the clip; otherwise
     * change nothing.
     */
    method LoadVideo(index: nat)
      requires Valid() && index < |videos|
      modifies this
      ensures Valid()
      ensures var cmd := LoadCommand(videos[index]);
        if old(hasPlayer) && old(isPlayerReady) && cmd.Some? then
          commands == old(commands) + [cmd.value] && currentIndex == index
        else
          commands == old(commands) && currentIndex == old(currentIndex)
      ensures isPlayerReady == old(isPlayerReady) && mounted == old(mounted) && hasPlayer == old(hasPlayer)
      ensures polling == old(polling) && intervalStarted == old(intervalStarted)
      ensures resumed == old(resumed)
    {
      if !hasPlayer || !isPlayerReady {
        return;
      }
      var cmd := LoadCommand(videos[index]);
      if cmd.Some? {
        commands := commands + [cmd.value];
        currentIndex := index;
      }
    }

    /**
     * The "previous" button: at the first clip nothing happens, otherwise
     * `loadVideo` runs for the clip before.
     */
    method HandlePrevious()
      requires Valid()
      modifies this
      ensures Valid()
      ensures var t := PreviousTarget(old(currentIndex));
        var cmd := if t.Some? then LoadCommand(videos[t.value]) else None;
        if old(hasPlayer) && old(isPlayerReady) && cmd.Some? then
          commands == old(commands) + [cmd.value] && currentIndex == t.value
        else
          commands == old(commands) && currentIndex == old(currentIndex)
      ensures isPlayerReady == old(isPlayerReady) && mounted == old(mounted) && hasPlayer == old(hasPlayer)
      ensures polling == old(polling) && intervalStarted == old(intervalStarted)
      ensures resumed == old(resumed)
    {
      var t := PreviousTarget(currentIndex);
      if t.Some? {
        LoadVideo(t.value);
      }
    }

    /**
     * The "next" button: at the last clip nothing happens, otherwise
     * `loadVideo` runs for the clip after.
     */
    method HandleNext()
      requires Valid()
      modifies this
      ensures Valid()
      ensures var t := NextTarget(old(currentIndex), |videos|);
        var cmd := if t.Some? then LoadCommand(videos[t.value]) else None;
        if old(hasPlayer) && old(isPlayerReady) && cmd.Some? then
          commands == old(commands) + [cmd.value] && currentIndex == t.value
        else
          commands == old(commands) && currentIndex == old(currentIndex)
      ensures isPlayerReady == old(isPlayerReady) && mounted == old(mounted) && hasPlayer == old(hasPlayer)
      ensures polling == old(polling) && intervalStarted == old(intervalStarted)
      ensures resumed == old(resumed)
    {
      var t := NextTarget(currentIndex, |videos|);
      if t.Some? {
        LoadVideo(t.value);
      }
    }

    /**
     * The mount effect's cleanup, run once on unmount: clear `mounted` and
     * the ready flag, stop the interval if one was started, destroy the
     * player if one was built.
     */
    method Cleanup()
      requires Valid() && mounted
      modifies this
      ensures Valid()
      ensures !mounted && !isPlayerReady && !polling
      ensures commands == old(commands) + (if hasPlayer then [Destroy] else [])
      ensures hasPlayer == old(hasPlayer) && currentIndex == old(currentIndex)
      ensures intervalStarted == old(intervalStarted)
      ensures resumed == old(resumed)
    {
      mounted := false;
      isPlayerReady := false;
      if intervalStarted {
        polling := false;
      }
      if hasPlayer {
        commands := commands + [Destroy];
      }
    }
  }

  /**
   * A session on the example playlist (A = [0, 30], B = [10, 40]), up to the first
   * loop: mounting requests the API once, the runtime arrives, the player
   * is built for A, becomes ready, and a poll at 30 s loops A.
   */
  method ExampleSession()
  {
    var videos := ExamplePlaylist();
    ExampleIds();
    var loader := new ApiLoader.Loader(false);
    var c := new Controller(videos, 0, loader, 7);
    assert loader.scriptInserts == 1;
    loader.RuntimeLoaded();
    c.InitializePlayer();
    assert c.commands == [Construct("aaa", InitialVars(videos[0]))];
    c.OnReady();
    c.Tick(30.0);
    assert c.commands[1..] == [SeekTo(0.0), PlayVideo];
    ExampleNavigation(c);
  }

  /**
   * The rest of the example session: "next" loads B and selects it; a poll at
   * 35 s, past A's end but inside B's window, does nothing; "next" at the
   * last clip does nothing; unmounting destroys the player once and stops
   * the interval.
   */
  method ExampleNavigation(c: Controller)
    requires c.Valid() && c.videos == ExamplePlaylist() && c.currentIndex == 0
    requires c.mounted && c.hasPlayer && c.isPlayerReady && c.polling && |c.commands| == 3
    modifies c
  {
    ExampleIds();
    c.HandleNext();
    assert c.currentIndex == 1 && c.commands[3..] == [LoadVideoById("bbb", 10.0, 40.0)];
    c.Tick(35.0);
    assert |c.commands| == 4;
    c.HandleNext();
    assert c.currentIndex == 1 && |c.commands| == 4;
    c.Cleanup();
    assert c.commands[4..] == [Destroy] && !c.polling;
  }
  /**
   * Unmounting while the API is still loading: "next" before the player
   * exists is dropped, the cleanup finds no player to destroy,
   * and when the runtime arrives the resumed `initializePlayer` sees the
   * component unmounted and builds nothing.
   */
  method UnmountWhileLoading()
  {
    var videos := ExamplePlaylist();
    ExampleIds();
    var loader := new ApiLoader.Loader(false);
    var c := new Controller(videos, 0, loader, 7);
    c.HandleNext();
    assert c.currentIndex == 0 && c.commands == [];
    c.Cleanup();
    assert !c.mounted && c.commands == [];
    loader.RuntimeLoaded();
    c.InitializePlayer();
    assert !c.hasPlayer && c.commands == [];
  }

  /**
   * A click on "next" before the runtime arrives is dropped (there is no
   * player to load into), and the player is then built for clip A.
   */
  method ClickBeforePlayer()
  {
    var videos := ExamplePlaylist();
    ExampleIds();
    var loader := new ApiLoader.Loader(false);
    var c := new Controller(videos, 0, loader, 7);
    c.HandleNext();
    assert c.currentIndex == 0 && c.commands == [];
    loader.RuntimeLoaded();
    c.InitializePlayer();
    assert c.currentIndex == 0 && c.commands == [Construct("aaa", InitialVars(videos[0]))];
  }
  /**
   * Mounting on a page where the runtime is already present resolves at
   * once and builds the player without a script tag.
   */
  method MountWithRuntimePresent()
  {
    var videos := ExamplePlaylist();
    ExampleIds();
    var loader := new ApiLoader.Loader(true);
    var c := new Controller(videos, 0, loader, 7);
    c.InitializePlayer();
    assert c.commands == [Construct("aaa", InitialVars(videos[0]))];
    assert loader.scriptInserts == 0;
  }

  /**
   * A second player mounted after the first is unmounted reuses the
   * runtime the first one loaded: it resolves at once and inserts no
   * second script tag.
   */
  method RemountReusesRuntime()
  {
    var videos := ExamplePlaylist();
    var loader := new ApiLoader.Loader(false);
    var c := new Controller(videos, 0, loader, 7);
    loader.RuntimeLoaded();
    c.Cleanup();
    ExampleIds();
    var d := new Controller(videos, 1, loader, 8);
    d.InitializePlayer();
    assert d.commands == [Construct("bbb", InitialVars(videos[1]))];
    assert loader.scriptInserts == 1;
  }
}
