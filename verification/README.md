# YouTube clip player: a Dafny model of the playback controller

The `VideoPlayer` React component plays a playlist of YouTube clips. Each clip is a
`{link, start, end}` window in seconds. The component:

- loads the YouTube iframe API once per page and shares it among all players;
- extracts the video id from a `youtu.be/<id>` or `youtube.com/watch?v=<id>` link;
- builds one embedded player for the initial clip;
- moves between clips with "previous" and "next";
- means to keep playback inside the current clip's window: a 1-second poll and the ENDED
  event are to seek back to the clip's start and play. As written, both read the first
  render's state (see "## Findings"). `Player.Controller.Tick` and
  `Player.Controller.OnStateChange` model the corrected behaviour, and
  `Player.PollAsWritten` and `Player.EndedAsWritten` model the behaviour as written;
- tears everything down on unmount.

The model is split into five modules:

- `Wrappers`: an `Option` type for JavaScript's `null`/`undefined`.
- `Text`: the JavaScript string operations the component relies on: `includes` and `split`
  with a string separator. `IndexOf` (`indexOf`) is the helper that defines `includes`, and
  `Split` cuts at its first occurrence. `Join` is the partner of `Split`, and
  `JoinSplit` proves that splitting loses nothing.
- `VideoIds`: `getVideoId`. The result has three outcomes: an id, `null`, or a thrown
  `TypeError`. The error comes when a link contains `youtu.be` but not `youtu.be/`, so that
  `split(...)[1]` is `undefined`. `UsableId` applies JavaScript truthiness, which rejects
  `null` and `""` alike. Round-trip lemmas show that a link built from an id gives the id back.
- `ApiLoader`: the module-level loader, as a class `Loader`. It holds the `isApiLoading`
  flag, the `apiReadyCallbacks` queue, the readiness handler, and a count of script tags
  inserted. Each promise is a waiter id. Resolving a promise appends its id to `resolved`.
- `Player`: the component, as a class `Controller`. Its fields are the props, the
  `currentIndex` and `isPlayerReady` states, `playerRef`, the effect's `mounted` flag and
  the interval. The external player is replaced by `commands`, the log of calls made on
  it. Callbacks become methods: `onReady`, one tick of the interval, `onStateChange`, the
  buttons and the cleanup. The pure decisions behind these methods are functions:
  `LoopCommands`, `StateChangeCommands`, `PreviousTarget` and `NextTarget`.
  `RepeatedEnforcement` proves that loop enforcement is idempotent on a small model of the
  player's position. The poll and ENDED handler of the methods follow the corrected
  behaviour described under "## Findings". Five event sequences on the example playlist
  are verified: `ExampleSession` (mount, load, loop, navigate, unmount),
  `UnmountWhileLoading` (unmount before the API resolves: no player is built or destroyed),
  `ClickBeforePlayer` (a click before the player exists is dropped),
  `MountWithRuntimePresent` (with the runtime already on the page, the player is built at
  once, with no script tag) and `RemountReusesRuntime` (a remount after the runtime has
  loaded builds its player at once, with no second script tag).

The code builds the player with `loop: 1`, and the model follows the code (`Player.InitialVars`).

## Model

| member | source | states |
|---|---|---|
| Text.IndexOf | src/components/VideoPlayer.jsx:47 | the result is the first position where the pattern occurs; `None` means it occurs nowhere (`includes` is `IndexOf(..).Some?`) |
| Text.Split | src/components/VideoPlayer.jsx:48 | `split` gives at least one piece, and two or more exactly when the separator occurs |
| Text.SplitPiecesFree | src/components/VideoPlayer.jsx:48 | no piece of a split contains the separator |
| Text.JoinSplit | src/components/VideoPlayer.jsx:48 | joining the pieces of a split with the separator gives back the original string |
| Text.SecondPiece | src/components/VideoPlayer.jsx:48 | `s.split(sep)[1]` is the text right after the first `sep`, up to the end or the next `sep`, and contains no `sep` |
| Text.SecondPieceHead | src/components/VideoPlayer.jsx:48 | `s.split(sep)[1].split(stop)[0]` is the text right after the first `sep`; it runs up to the end, the next `stop` or the next `sep`, and contains neither |
| VideoIds.SearchOf | src/components/VideoPlayer.jsx:51 | the query of a URL (after the first `?`, before the first `#`) never contains `#` |
| VideoIds.FirstValue | src/components/VideoPlayer.jsx:51-52 | `URLSearchParams.get` is `null` exactly when no pair has the name; otherwise it is the value of the first pair with that name |
| VideoIds.NameValueJoin | src/components/VideoPlayer.jsx:51-52 | a query pair splits at its first `=`: the name holds no `=`, and name, `=` and value give back the pair; a pair without `=` is all name, with an empty value |
| VideoIds.QueryParam | src/components/VideoPlayer.jsx:51-52 | a query parameter value never contains `&` |
| VideoIds.GetVideoId | src/components/VideoPlayer.jsx:46-55 | in the model, throws exactly when the link contains `youtu.be` but not `youtu.be/`; gives `null` when neither marker is present; a short-link id has no `?`; a watch-link id has no `&` |
| VideoIds.ShortLinkId | src/components/VideoPlayer.jsx:47-48 | for a link containing `youtu.be/`, the id is the text right after the first `youtu.be/`; it runs up to the end, the first `?` or the next `youtu.be/` |
| VideoIds.ShortLinkRoundTrip | src/components/VideoPlayer.jsx:46-49 | `https://youtu.be/<id>`, optionally followed by `?<query>`, gives back `<id>` for every id made of id characters |
| VideoIds.WatchLinkRoundTrip | src/components/VideoPlayer.jsx:50-53 | `https://www.youtube.com/watch?v=<id>` gives back `<id>` for every id made of id characters |
| VideoIds.UsableId | src/components/VideoPlayer.jsx:109 | an id is usable exactly when one was returned and it is non-empty (JavaScript truthiness) |
| ApiLoader.Loader.constructor | src/components/VideoPlayer.jsx:6-8 | a page starts with no load in flight, an empty callback queue, no handler, no script tag and no request resolved |
| ApiLoader.Loader.LoadYouTubeAPI | src/components/VideoPlayer.jsx:11-36 | with the runtime present, the request resolves at once; with a load in flight, it is only queued; otherwise it is queued and exactly one script tag is inserted and the handler installed; the loader invariant is kept (at most one script tag, every request resolved or queued in order) |
| ApiLoader.Loader.OnYouTubeIframeAPIReady | src/components/VideoPlayer.jsx:30-34 | clears the loading flag and resolves every queued waiter in order; afterwards the queue is empty; a second call resolves nothing more |
| ApiLoader.Loader.RuntimeLoaded | src/components/VideoPlayer.jsx:23-34 | once the inserted script loads and the handler runs, every request made so far is resolved, in request order |
| Player.InitialVars | src/components/VideoPlayer.jsx:118-133 | the player is built with the clip's start and end, autoplay, controls, the native loop flag on, related videos off, the JS API enabled and inline playback |
| Player.LoadCommand | src/components/VideoPlayer.jsx:60-68 | `loadVideo` issues a call exactly when the link yields a non-empty id, and that call is `loadVideoById` with the id and the clip's start and end |
| Player.LoopCommands | src/components/VideoPlayer.jsx:86-96 | `handleVideoLoop` issues `seekTo(start)` then `playVideo` exactly when a player exists, it is ready and the time is at or past the clip's end; otherwise it issues nothing |
| Player.RepeatedEnforcement | src/components/VideoPlayer.jsx:92-95 | loop enforcement is idempotent: from a position at or past the end, any number of checks leave the player at the clip's start, playing |
| Player.EnforceAtStart | src/components/VideoPlayer.jsx:92-95 | a player at the clip's start, playing, stays unchanged under any number of checks |
| Player.StateChangeCommands | src/components/VideoPlayer.jsx:147-161 | `onStateChange` issues `seekTo(start)` then `playVideo` exactly when the component is mounted and the state is ENDED; PLAYING, PAUSED and the other states issue nothing |
| Player.PreviousTarget | src/components/VideoPlayer.jsx:73-77 | "previous" targets the index one less, and nothing at the first clip |
| Player.NextTarget | src/components/VideoPlayer.jsx:79-83 | "next" targets the index one more, always inside the playlist, and nothing at the last clip |
| Player.NavigationInverse | src/components/VideoPlayer.jsx:73-83 | "next" then "previous", and "previous" then "next", come back to the same clip |
| Player.PollAsWritten | src/components/VideoPlayer.jsx:141-145 | the interval callback, as written, issues nothing in every state |
| Player.PollCommands | src/components/VideoPlayer.jsx:141-145 | a tick reading the live state loops the selected clip exactly when the component is mounted, the player is built and ready, and the time is at or past that clip's end |
| Player.EndedAsWritten | src/components/VideoPlayer.jsx:155-159 | the ENDED branch, as written, seeks to the start of the first render's clip |
| Player.StalePollCounterexample | src/components/VideoPlayer.jsx:141-145 | on clip A = [0, 30] at 30 s with a ready player, the poll as written issues nothing, while the live state calls for `seekTo(0)` and `playVideo` |
| Player.StaleEndedCounterexample | src/components/VideoPlayer.jsx:155-159 | after moving from A = [0, 30] to B = [10, 40], ENDED as written seeks to 0, while the selected clip calls for 10 |
| Player.Controller.constructor | src/components/VideoPlayer.jsx:98-104 | mounting starts at the initial index, with no player, not ready and no interval, and makes one loader request for this component: resolved at once when the runtime is already present, queued otherwise (inserting the one script tag if no load is in flight) |
| Player.Controller.InitializePlayer | src/components/VideoPlayer.jsx:102-170 | after the API resolves: if still mounted and the initial clip's link yields a usable id, the first and only call builds the player with that id and the clip's window; otherwise (`null`, `""` or a thrown error caught by the `try`) nothing is built |
| Player.Controller.OnReady | src/components/VideoPlayer.jsx:135-146 | when mounted, the player becomes ready and the interval starts; when unmounted, nothing changes |
| Player.Controller.Tick | src/components/VideoPlayer.jsx:141-145 | one interval firing appends exactly `PollCommands` for the live state and changes nothing else |
| Player.Controller.OnStateChange | src/components/VideoPlayer.jsx:147-161 | appends exactly `StateChangeCommands` for the selected clip and changes nothing else |
| Player.Controller.LoadVideo | src/components/VideoPlayer.jsx:57-71 | with a built, ready player and a usable id, issues one `loadVideoById` with the clip's id, start and end, and selects the clip; otherwise neither the log nor the index changes |
| Player.Controller.HandlePrevious | src/components/VideoPlayer.jsx:73-77 | at the first clip nothing changes; otherwise the index moves back by one exactly when the load goes through, with one `loadVideoById` for the new clip; the index stays in the playlist |
| Player.Controller.HandleNext | src/components/VideoPlayer.jsx:79-83 | at the last clip nothing changes; otherwise the index moves forward by one exactly when the load goes through, with one `loadVideoById` for the new clip; the index stays in the playlist |
| Player.Controller.Cleanup | src/components/VideoPlayer.jsx:174-183 | unmounting clears `mounted` and the ready flag and stops the interval; it destroys the player once, only if one was built; afterwards `destroy` is the last call and every later event issues nothing |

## Left out

- Rendering (src/components/VideoPlayer.jsx:186-273): the Material UI layout, the title, and the buttons' `disabled` flags. The flags repeat the guards that `handlePrevious` and `handleNext` already apply.
- Player size: the width is read from the container, and the height is 9/16 of it in floating point. Neither the size nor the `origin` option appears in `Construct`.
- Logging and `onError`: they only log to the console.
- Timing: promises, `await` and `setInterval` are explicit events (`RuntimeLoaded`, `InitializePlayer`, `Tick`) that the environment calls in any order the preconditions allow. `InitializePlayer` requires that this component's waiter has been resolved. `getCurrentTime()` is the parameter of `Tick`.
- The external player itself: the model keeps only the log of calls made on it. `Player.Apply` gives the effect of `seekTo` and `playVideo` on the position and on whether it plays.
- The document: inserting the script tag is a counter (`scriptInserts`). The script's download is the `RuntimeLoaded` event.
- React scheduling: state updates take effect at once. The cleanup's `setIsPlayerReady(false)` (src/components/VideoPlayer.jsx:176) is modelled as clearing the flag, although React discards that update on an unmounting component. Afterwards the only model event that reads the flag is `LoadVideo`, which the source cannot reach once the buttons are gone.
- Player.Controller.constructor: requires `initialIndex < |videos|`, so the playlist is non-empty. The source checks neither (`initialIndex = 0` is only a default at src/components/VideoPlayer.jsx:38, and :41 and :44 index `videos` unchecked); with such input the first render throws at `currentVideo.start` (:265), which the model does not represent.
- Times: clip `start`/`end` and `getCurrentTime()` are JavaScript numbers, modelled as finite reals. A clip without `end` (where `currentTime >= undefined` is false and `playerVars.end` is `undefined`, so the clip never loops) and NaN have no counterpart in the model.
- Player.Controller.OnReady: a second `onReady` would start a second interval and lose the handle of the first, which cleanup then never clears. The model keeps a single `polling` flag, so that leak is not represented.
- Player.Controller.LoadVideo: for a link on which `getVideoId` throws, the exception leaves the click handler. The model represents this as "nothing changes" and does not represent the exception.
- VideoIds.SearchOf: `new URL(url)` is reduced to "after the first `?`, before the first `#`". URL validation, the throw on a non-absolute URL and normalisation are not modelled.
- VideoIds.FirstValue: `URLSearchParams` percent-decoding and the `+`-to-space rule are not modelled. Names and values are compared and returned as raw text. `URLSearchParams` also skips empty pieces between `&`, which the model keeps as pairs with an empty name; so for the empty name the model can give `Some("")` (on the query `&`) where `get("")` returns `null`. The component only asks for `"v"`, which this does not affect.
- VideoIds.GetVideoId: its own contract states only the error condition and the shape of the id. What the id is comes from `ShortLinkId` and the two round-trip lemmas. In the source, `new URL(url)` also throws on a watch link that is not absolute (`www.youtube.com/watch?v=abc`); the model returns the id there, so its "throws exactly when" holds for the model only.
- The rest of the repository (pages, routing, the playlist data in the home page) is not part of this model.

## Findings

| source | as written | input that shows it | evidently intended | confidence | as-written member | corrected member |
|---|---|---|---|---|---|---|
| src/components/VideoPlayer.jsx:141-145 | The interval is created inside the mount effect, whose dependency list is `[]`. So it calls the `handleVideoLoop` of the first render. That closure reads `isPlayerReady == false` forever and returns at once. | Playlist A = [0, 30], B = [10, 40]; the player is ready on A and reports 30 s. Nothing is issued. | Seek to the selected clip's start and play once its end is reached. | high; not executed | Player.PollAsWritten (with Player.StalePollCounterexample) | Player.PollCommands (used by Player.Controller.Tick) |
| src/components/VideoPlayer.jsx:155-159 | The ENDED branch reads `currentVideo` from the first render, which is always `videos[initialIndex]`. | Same playlist; "next" selects B, then the player reports ENDED. It seeks to 0, outside B's window. | Seek to the selected clip's start (10 for B). | high; not executed | Player.EndedAsWritten (with Player.StaleEndedCounterexample) | Player.StateChangeCommands on the selected clip (used by Player.Controller.OnStateChange) |
