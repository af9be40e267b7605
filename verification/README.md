# Tactics board: a Dafny model of the editor and the player

This project models the pure core of a football tactics board written in TypeScript and React. The board has two pages:

- The **editor** puts two teams of eleven on a pitch from a choice of six formations. On the pitch you can add, edit, move and remove players, drag the ball, and draw pass and run arrows. The current board can be recorded as up to ten *scenes*.
- The **player** replays the recorded scenes. It eases each player and the ball from one scene to the next, and it draws the arrows.

All of it is written as immutable datatypes and pure functions over exact reals, integers and strings. Each module follows one source file:

| module | file | what it holds |
|---|---|---|
| `Tactic` | `src/data/tactic.ts` | the formation generator: rows of jersey numbers and x-spreads at fixed depth bands |
| `Recorder` | `src/recording/SceneRecorderContext.tsx` | the capacity-bounded list of scenes and its three operations |
| `RecordPanel` | `src/components/RecordPanel.tsx` | which recording buttons are enabled |
| `Playback` | `src/pages/PlayerPage.tsx` | the easing curve, id decoding, roster, interpolation and the playback cursor |
| `Workspace`, `Color` | `src/components/Workspace.tsx` | the editor's state operations, the save and finish guards, and the `lighten` colour function |
| `Board` | `src/components/Board.tsx` | sizing, scale-derived sizes, the drag clamp, and the two-click arrow machine |
| `DrawToolbar` | `src/components/DrawToolbar.tsx` | the draw-mode toggles |
| `Types` | `src/types/recording.ts`, `src/types/draw.ts` | the shared records |
| `Text`, `Numeric`, `Wrappers` | — | JavaScript's string and number primitives that the above rely on |

Some of the source's primitives need exact semantics:

- **Strings and numbers:**
  - `split('_')`, `startsWith` and the template literal `${n}` are modelled exactly.
  - `Number(token)` is modelled as "all decimal digits → their value, else 0".
  - `parseInt(_, 16)` is modelled as the value of the longest base-16 prefix, or NaN.
  - `toString(16)`, `slice(0, -1)` and `replace("#", "")` are modelled exactly; the last removes only the first `#`.
  - `Math.round(x)` is `⌊x + 0.5⌋`.
  - The bit operations of `lighten` become quotient and remainder. This is exact for the non-negative values that occur, and NaN counts as 0.
- **Animation frames:** the `requestAnimationFrame` callback of the player is a pure transition `Tick(cursor, sceneCount, now)`. The cursor records the current segment's start time. It is cleared whenever the animation effect restarts, which happens when the scene index changes or play resumes from a pause. A pause itself keeps it, but it is never read while paused.
- **Randomness and the clock:** ids built from `Math.random()` and `Date.now()` take those values as parameters.

Two behaviours are proved although they may surprise a user:

- The player page cannot read a custom player's number or label back from its id (`Workspace.CustomIdDecodes`).
- A recorded scene keeps only ids and positions, so renaming or renumbering a player never reaches the player page. A 4-4-2 goalkeeper renamed "Ali" still plays back as "P1" (`Workspace.EditsInvisibleToPlayback`).
- The editor stops saving at ten scenes even when the recorder's capacity is larger (`Workspace.SaveMatchesPanel`).

Right after a formation is applied, and before any edit, the player page reads each formation player's metadata back exactly (`Workspace.FormationRosterMatches`).

When a recorded player is missing from a later scene, the code uses the player's first-scene position as that endpoint. The player does not simply stay where it last was. The model follows the code (`Playback.Endpoint`, `Playback.MissingPlayerHoldsStill`).

## Model

| member | source | states |
|---|---|---|
| Tactic.GenerateFormation | src/data/tactic.ts:59-154 | every formation and side yields exactly 11 seeds, the first being the goalkeeper: number 1, label "P1", nx 0.5, ny 0.06 for top and 0.94 for bottom |
| Tactic.Row | src/data/tactic.ts:15-17 | a row has one seed per x value, numbered from the row's list, labelled "P"+number, all at the row's depth |
| Tactic.FlattenLength | src/data/tactic.ts:63-148 | pushing rows one after another yields as many seeds as the rows have cells, the first row's first seed first |
| Tactic.LayoutCells | src/data/tactic.ts:65-146 | every formation pushes eleven cells in all |
| Tactic.FlattenIn | src/data/tactic.ts:68-146 | if every row lies in a depth band and x-range, so does every seed pushed |
| Tactic.FlattenOrdered | src/data/tactic.ts:68-146 | rows pushed from the goal line outwards give seeds of non-decreasing depth, with x strictly increasing within a row |
| Tactic.FlattenMirror | src/data/tactic.ts:60-61 | mirroring every row's depth mirrors every seed's depth and leaves number, label, x and order alone |
| Tactic.BottomMirrorsTop | src/data/tactic.ts:20-33 | the bottom side's list is the top side's with ny replaced by 1 − ny, everything else identical |
| Tactic.SeedsInOwnHalf | src/data/tactic.ts:20-55 | every seed is labelled "P" and its own number, has nx in [0.14, 0.86], and ny in [0.06, 0.48] for top or [0.52, 0.94] for bottom, so it never reaches the midline |
| Tactic.SeedsOrdered | src/data/tactic.ts:68-146 | depth is non-decreasing along the top list and non-increasing along the bottom list, and seeds of one row run left to right |
| Tactic.FormationNumbers | src/data/tactic.ts:36-45 | the jersey numbers of each formation, in list order, are the listed ones, for both sides |
| Tactic.RepeatedJerseys | src/data/tactic.ts:93-133 | 3-5-2 gives number 11 twice and 4-1-4-1 gives number 6 twice |
| Tactic.DistinctJerseys | src/data/tactic.ts:68-146 | the other four formations hand out eleven distinct numbers |
| Tactic.JerseysPositive | src/data/tactic.ts:36-45 | no seed has number 0 |
| Tactic.FormationListComplete | src/data/tactic.ts:5-12 | the formation list offers every formation exactly once |
| Recorder.NewRecorder | src/recording/SceneRecorderContext.tsx:16-18 | a provider starts with no scenes and capacity `max`, 10 by default |
| Recorder.AddScene | src/recording/SceneRecorderContext.tsx:20-22 | below capacity the frame is appended after the unchanged earlier scenes; at or over capacity nothing changes |
| Recorder.ClearScenes | src/recording/SceneRecorderContext.tsx:23 | the list becomes empty and the capacity stays |
| Recorder.RemoveLast | src/recording/SceneRecorderContext.tsx:24 | exactly the newest scene is dropped; an empty list stays empty |
| Recorder.ApplyBounded | src/recording/SceneRecorderContext.tsx:20-24 | each of the three operations keeps the length within the capacity and keeps the capacity |
| Recorder.RunBounded | src/recording/SceneRecorderContext.tsx:16-24 | no sequence of operations ever exceeds the capacity, and the capacity never changes |
| Recorder.AddThenRemoveLast | src/recording/SceneRecorderContext.tsx:20-24 | undo right after an append below capacity restores the previous list |
| Recorder.AppendsFill | src/recording/SceneRecorderContext.tsx:20-22 | appends that stay within capacity all land, in order |
| Recorder.EleventhAppendIgnored | src/recording/SceneRecorderContext.tsx:16-22 | from a default provider, ten appends store the ten frames and an eleventh changes nothing |
| Recorder.UseRecorder | src/recording/SceneRecorderContext.tsx:33-37 | inside a provider its recorder is returned; outside, the failure with the source's message |
| RecordPanel.View | src/components/RecordPanel.tsx:11-50 | "save" is enabled iff scenes < capacity, "undo" and "clear" iff there are scenes, "finish" iff there are at least two |
| RecordPanel.SaveEnabledGrows | src/components/RecordPanel.tsx:39-46 | whenever "save" is enabled, the append grows the list by exactly one, with the frame last |
| RecordPanel.SaveDisabledInert | src/components/RecordPanel.tsx:12 | when "save" is disabled, an append would change nothing |
| RecordPanel.UndoMatchesButton | src/components/RecordPanel.tsx:23-30 | an enabled "undo" shortens the list by one; a disabled one would change nothing |
| RecordPanel.ClearMatchesButton | src/components/RecordPanel.tsx:31-38 | "clear" is disabled exactly when clearing would change nothing |
| Playback.EaseFixedPoints | src/pages/PlayerPage.tsx:30-32 | ease(0) = 0, ease(0.5) = 0.5 (through the second branch) and ease(1) = 1 |
| Playback.Ease | src/pages/PlayerPage.tsx:30-32 | on [0, 1] the eased value stays in [0, 1]; the first half of the time covers at most half the distance, the second half at least half |
| Playback.EaseSymmetric | src/pages/PlayerPage.tsx:30-32 | ease(1 − t) = 1 − ease(t) for every t |
| Playback.EaseMonotone | src/pages/PlayerPage.tsx:30-32 | on [0, 1] the curve never decreases |
| Playback.EaseRange | src/pages/PlayerPage.tsx:30-32 | on [0, 1] the curve stays in [0, 1] |
| Playback.NumberOf | src/pages/PlayerPage.tsx:25-26 | an all-digit token reads as its decimal value; a missing or non-numeric token as 0 |
| Playback.InferMetaFromId | src/pages/PlayerPage.tsx:22-28 | the team is bottom iff the id starts with "bottom_", the number is never negative, and the label is "P" alone iff the number is 0 |
| Playback.InferMetaOfEncodedId | src/pages/PlayerPage.tsx:22-28 | an id "side_number" followed by nothing or by "_…" decodes to that side, that number and the label "P"+number ("P" for 0) |
| Playback.InferMetaOfTokens | src/pages/PlayerPage.tsx:22-28 | for any id of a first token, "_", a second token, and then nothing or "_…": bottom iff it starts with "bottom_", the number is the second token's value (0 if not all digits) and the label follows the number |
| Playback.InferMetaNoSeparator | src/pages/PlayerPage.tsx:22-28 | an id without "_" decodes to top, number 0, label "P" |
| Text.DecimalRoundTrip | src/pages/PlayerPage.tsx:25 | reading a number's decimal rendering back gives the number |
| Text.DecimalInjective | src/data/tactic.ts:66 | distinct numbers render as distinct decimal strings |
| Text.Decimal | src/data/tactic.ts:66 | a rendering is non-empty, all digits, with a leading 0 only for 0 itself |
| Text.SplitHead | src/pages/PlayerPage.tsx:24 | splitting at a separator peels off the separator-free piece before it intact |
| Text.Split | src/pages/PlayerPage.tsx:24 | at least one piece, no piece contains the separator, and joining the pieces with the separator gives the string back |
| Text.SplitNoSeparator | src/pages/PlayerPage.tsx:24 | a string without the separator splits into itself alone |
| Playback.MetaOf | src/pages/PlayerPage.tsx:66-68 | a pose that carries a team uses its own fields (defaults: number 0, label "P"); otherwise the id is decoded |
| Playback.Roster | src/pages/PlayerPage.tsx:63-72 | the roster has exactly the first scene's players, in order, with their metadata and first-scene positions |
| Playback.Find | src/pages/PlayerPage.tsx:84-85 | the result is the first pose with the id, and none exactly when no pose has it |
| Playback.FindUnique | src/pages/PlayerPage.tsx:84-85 | in a scene with distinct ids, looking up a pose's id finds that pose |
| Playback.Endpoint | src/pages/PlayerPage.tsx:84-85 | a player's endpoint is its pose in the scene, or its first-scene position when absent |
| Playback.InterpPlayers | src/pages/PlayerPage.tsx:83-91 | the interpolated list keeps the roster's ids, order, teams, numbers and labels |
| Playback.InterpEndpoints | src/pages/PlayerPage.tsx:79-96 | at eased progress 0 players and ball stand at their `from` positions, at 1 at their `to` positions |
| Playback.InterpBall | src/pages/PlayerPage.tsx:93-96 | the ball is at `from` for 0, at `to` for 1, and between the two on each axis for eased progress in [0, 1] |
| Playback.InterpBetween | src/pages/PlayerPage.tsx:83-91 | for eased progress in [0, 1] every player lies between its two endpoints on each axis |
| Playback.InterpToward | src/pages/PlayerPage.tsx:83-96 | at a larger eased progress every player and the ball lie between where they were and their `to` positions |
| Playback.MissingPlayerHoldsStill | src/pages/PlayerPage.tsx:83-91 | a player absent from the second scene stays at its first-scene position throughout the first segment |
| Playback.Tick | src/pages/PlayerPage.tsx:99-123 | paused cursors do not move; a stop request comes only with play stopped at progress 1; within a segment progress is elapsed/1500 below 1 and the start is fixed |
| Playback.OnPlay | src/pages/PlayerPage.tsx:131-135 | as written: play starts at progress 0, rewinding to scene 0 exactly when the index is at or past the last scene |
| Playback.OnPlayNeverRewinds | src/pages/PlayerPage.tsx:109-135 | for every valid cursor the rewind test of `onPlay` is false, so play resumes at the current index |
| Playback.PlayAfterFinish | src/pages/PlayerPage.tsx:109-135 | once the last segment ends with the stop request, play as written resumes at index n − 2, while the intended version starts at 0 |
| Playback.OnPlayIntended | src/pages/PlayerPage.tsx:131-135 | play starts at progress 0, at scene 0 for a finished run (past the last pair, or at its end), and otherwise exactly as `onPlay` |
| Playback.OnPause | src/pages/PlayerPage.tsx:136 | only the playing flag changes |
| Playback.OnRestart | src/pages/PlayerPage.tsx:137-141 | index 0, progress 0, paused, from any state |
| Playback.InitialValid | src/pages/PlayerPage.tsx:42-44 | the initial cursor is valid for any recording of two or more scenes |
| Playback.TickValid | src/pages/PlayerPage.tsx:109-122 | a tick keeps 0 ≤ index ≤ scenes − 2 and progress in [0, 1], and moves the index by 0 or 1 |
| Playback.ControlsValid | src/pages/PlayerPage.tsx:131-141 | play (as written and as intended), pause and restart keep the cursor valid |
| Playback.FirstTickOfSegment | src/pages/PlayerPage.tsx:104-107 | a segment's first tick fixes its start at that moment and shows progress 0 |
| Playback.SegmentEnds | src/pages/PlayerPage.tsx:109-122 | after 1500 ms a segment either advances the index by one with progress 0 and play on, or, at the last pair, stops at progress 1 and requests the capture stop |
| Playback.ProgressMonotone | src/pages/PlayerPage.tsx:104-107 | within a segment a later tick never shows less progress |
| Playback.ThreeScenesPlayThrough | src/pages/PlayerPage.tsx:99-135 | three scenes played with ticks at 0, 1500, 1500 and 3000 ms end at scene 1, progress 1, paused, stop requested |
| Playback.ReplayAfterThreeScenes | src/pages/PlayerPage.tsx:99-135 | after that run, Play as written resumes at scene 1 and the intended version at scene 0 |
| Playback.Open | src/pages/PlayerPage.tsx:37-60 | a session opens iff the payload has at least two scenes, with those scenes, its arrows (none when absent) and the first scene's roster |
| Playback.Render | src/pages/PlayerPage.tsx:79-96 | one player per roster entry with its id and the session's arrows; every player and the ball lie between their `from` and `to` positions, at `from` for progress 0 and at `to` for progress 1 |
| Playback.RenderToward | src/pages/PlayerPage.tsx:79-107 | within a segment, more progress never moves a player or the ball back: each lies between its earlier position and its `to` position |
| Color.RemoveFirstHash | src/components/Workspace.tsx:33 | a string without "#" is unchanged; a leading "#" is dropped |
| Color.HexPrefix | src/components/Workspace.tsx:34 | the longest base-16 prefix, and the whole string when it is all base-16 digits |
| Color.ParseInt16 | src/components/Workspace.tsx:34 | a non-empty all-hex string parses to its base-16 value |
| Color.Channel | src/components/Workspace.tsx:35-37 | a channel is always in 0..255 |
| Color.MixBounds | src/components/Workspace.tsx:38 | mixing never darkens a channel and never exceeds 255 |
| Color.Mix | src/components/Workspace.tsx:38 | a channel in 0..255 is mixed to a value between itself and 255 |
| Color.LightenedValue | src/components/Workspace.tsx:35-40 | the packed lightened colour fits in 24 bits |
| Color.Lighten | src/components/Workspace.tsx:40 | the result is "#" and exactly six lower-case base-16 digits |
| Color.LightenPadding | src/components/Workspace.tsx:40 | the `(1 << 24) + v` rendering without its first digit is v zero-padded to six digits |
| Text.ToHexOfOffset | src/components/Workspace.tsx:40 | rendering 16^k + v for v < 16^k gives "1" and then v padded to k digits |
| Text.ParseFixedHex | src/components/Workspace.tsx:34 | parsing a zero-padded base-16 rendering gives the value back |
| Color.ReparsePadded | src/components/Workspace.tsx:33-40 | "#" and six digits, with the "#" removed, parse back to the value they render |
| Color.PackedChannels | src/components/Workspace.tsx:35-40 | extracting channels 16, 8 and 0 from a packed colour gives back the three channels |
| Color.LightenReparses | src/components/Workspace.tsx:33-40 | the output of `lighten` parses back to the packed lightened value |
| Color.LightenedChannels | src/components/Workspace.tsx:35-39 | the packed value holds the three mixed input channels |
| Color.LightenRoundTrip | src/components/Workspace.tsx:32-41 | reading the output back, each channel equals the mixed input channel, between the input channel and 255 |
| Color.LightenWhite | src/components/Workspace.tsx:32-41 | white maps to white |
| Workspace.InitialTeams | src/components/Workspace.tsx:56-59 | the two teams start blue and red, with outlines lightened from their fills |
| Workspace.SetTeamName | src/components/Workspace.tsx:102-103 | only the chosen team's name changes |
| Workspace.SetTeamColor | src/components/Workspace.tsx:105-106 | the chosen team gets the fill and the outline lightened from it; its name and the other team stay |
| Workspace.OutlineNoDarker | src/components/Workspace.tsx:105-106 | read back channel by channel, an outline is never darker than its fill |
| Workspace.Filter | src/components/Workspace.tsx:74 | the result holds exactly the selected players of the input |
| Workspace.FilterAppend | src/components/Workspace.tsx:74 | filtering a concatenation filters each part, keeping order |
| Workspace.FilterAll | src/components/Workspace.tsx:74 | a filter that selects every player keeps the list as it is |
| Workspace.FilterNone | src/components/Workspace.tsx:74 | a filter that selects no player leaves nothing |
| Workspace.FilterIdempotent | src/components/Workspace.tsx:120-122 | filtering twice is filtering once |
| Workspace.Recruit | src/components/Workspace.tsx:75-83 | one player per seed, in order, on the side, with the seed's number, label and position, and an id of side, number, index and suffix |
| Workspace.FormationId | src/components/Workspace.tsx:77 | a formation id decodes on the player page to its side, number and label "P"+number |
| Workspace.ApplyFormation | src/components/Workspace.tsx:71-87 | the ball returns to the centre, the arrows stay, and the list is the kept players plus eleven |
| Workspace.ApplyFormationSides | src/components/Workspace.tsx:71-87 | afterwards the other side's players are exactly those it had, in order, and this side's are exactly the eleven new ones, last |
| Workspace.SplitBySide | src/components/Workspace.tsx:74-84 | players of the other side followed by players of this side split back into the two parts |
| Workspace.SameTeamFilters | src/components/Workspace.tsx:74 | keeping the players not of a side is keeping those of the other side |
| Workspace.RecruitDecodes | src/components/Workspace.tsx:77 | a formation player's id decodes, on the player page, to its own side, number and label |
| Workspace.FormationIdsDecode | src/components/Workspace.tsx:71-87 | every player a formation creates is decoded by the player page with the editor's own team, number and label |
| Workspace.InitialEditor | src/components/Workspace.tsx:89-94 | the start board has its ball in the centre and no arrows |
| Workspace.InitialBoard | src/components/Workspace.tsx:89-94 | the start board is the top 4-4-2 followed by the bottom 4-4-2 |
| Workspace.ClearAllPlayers | src/components/Workspace.tsx:96-100 | no players, no arrows, the ball in the centre |
| Workspace.AddPlayer | src/components/Workspace.tsx:109-116 | exactly one player is appended, at (0.5, 0.42) for top or (0.5, 0.58) for bottom, with everything before it untouched |
| Workspace.AddThenRemove | src/components/Workspace.tsx:109-122 | removing a just-added player with a new id restores the board |
| Workspace.CustomIdDecodes | src/components/Workspace.tsx:114 | the player page decodes a custom player's id to its side, number 0 and label "P" |
| Workspace.CustomId | src/components/Workspace.tsx:114 | a custom id decodes on the player page to its side, number 0 and label "P" |
| Workspace.EditPlayer | src/components/Workspace.tsx:117-119 | players with the id take the patch's present fields; ids, teams, positions, order and the others stay |
| Workspace.MovePlayer | src/components/Workspace.tsx:125-127 | players with the id take the new position; everything else stays |
| Workspace.EditMoveCommute | src/components/Workspace.tsx:117-127 | editing and moving commute |
| Workspace.EditIdempotent | src/components/Workspace.tsx:117-119 | applying the same patch twice is applying it once |
| Workspace.LastMoveWins | src/components/Workspace.tsx:125-127 | of two moves of one player only the last counts |
| Workspace.RemovePlayer | src/components/Workspace.tsx:120-122 | the players left are exactly those without the id |
| Workspace.RemoveFacts | src/components/Workspace.tsx:120-122 | removing is idempotent and changes nothing when no player has the id |
| Workspace.MoveBall | src/components/Workspace.tsx:128-130 | only the ball moves |
| Workspace.AddArrow | src/components/Workspace.tsx:133 | the arrow is appended after the unchanged earlier arrows |
| Workspace.ClearArrows | src/components/Workspace.tsx:134 | no arrows; players and ball stay |
| Workspace.CaptureFrame | src/components/Workspace.tsx:142-145 | the scene is each player's id and position, in board order, and the ball |
| Workspace.CaptureThenRoster | src/components/Workspace.tsx:142-145 | the player page's roster of a captured scene has the board's ids and positions in board order |
| Workspace.EditsInvisibleToPlayback | src/components/Workspace.tsx:117-119 | editing a player leaves the player page's roster of the captured scene unchanged |
| Workspace.FormationRosterMatches | src/components/Workspace.tsx:71-87 | after applying a formation, the roster read back from the captured scene equals each new player exactly |
| Workspace.SaveCurrentScene | src/components/Workspace.tsx:137-147 | with ten or more scenes it alerts and changes nothing; otherwise it asks the recorder to append the captured scene |
| Workspace.SaveMatchesPanel | src/components/Workspace.tsx:137-147 | at the default capacity the alert fires exactly when "save" is disabled; a save never takes the list past ten |
| Workspace.FinishRecording | src/components/Workspace.tsx:149-155 | fewer than two scenes are refused; otherwise the scenes and arrows are handed over unchanged |
| Workspace.FinishThenOpen | src/components/Workspace.tsx:149-155 | finishing navigates exactly when "finish" is enabled, and the player opens a session with the same scenes and arrows |
| Numeric.Round | src/components/Board.tsx:82 | the rounded value is within one half of the input, halves going up |
| Board.AvailableHeight | src/components/Board.tsx:48-49 | the available height is the container's (the viewport's when 0), capped by the viewport |
| Board.Fit | src/components/Board.tsx:44-54 | the fitted height never exceeds the available height, and either the width is the container's or the height is the available one |
| Board.FitKeepsRatio | src/components/Board.tsx:51-52 | when the width-derived height fits, the width is the container's and the height 16/9 of it rounded; otherwise the height is the available one and the width 9/16 of it rounded |
| Board.Scale | src/components/Board.tsx:79 | the scale is always in [0.75, 1.6] |
| Board.ScaleFollowsWidth | src/components/Board.tsx:79 | the scale is width/390 exactly for widths in [292.5, 624], and the bound outside |
| Board.PlayerRadius | src/components/Board.tsx:82 | the player radius is between 14 and 22 |
| Board.BallRadius | src/components/Board.tsx:83 | the ball radius is between 10 and 16 |
| Board.ArrowStroke | src/components/Board.tsx:155 | the arrow stroke is between 3 and 6 |
| Board.GhostStroke | src/components/Board.tsx:156 | the ghost stroke is between 2 and 5 |
| Board.SizesMonotone | src/components/Board.tsx:79-83 | a wider canvas never gets a smaller scale, radius or stroke |
| Board.InitialSizes | src/components/Board.tsx:79-83 | before the first measurement (300 by 300) the scale is 300/390 and the radii are the base 14 and 10 |
| Board.BoundGeneric | src/components/Board.tsx:85-89 | a clamped point lies within `pad` of no edge when the canvas is at least 2·pad each way |
| Board.BoundFacts | src/components/Board.tsx:85-89 | the clamp leaves a point unchanged exactly when it is inside the band, and clamping twice is clamping once |
| Board.BoundNearest | src/components/Board.tsx:85-89 | the clamp moves a point no further, per axis, than any point of the band |
| Board.Normalise | src/components/Board.tsx:105-106 | a normalised point scaled by the canvas size gives the pixel back |
| Board.Place | src/components/Board.tsx:255-256 | the ball's (and an arrow end's) pixel normalises back to the stored point |
| Board.PlayerPixel | src/components/Board.tsx:232-233 | a player is drawn at whole pixels, within half a pixel of its scaled position on each axis |
| Board.DragPlayer | src/components/Board.tsx:246 | the point stored for a dragged player places back at the player-clamped pixel |
| Board.DragBall | src/components/Board.tsx:259 | the point stored for a dragged ball places back at the ball-clamped pixel |
| Board.DragStaysOnPitch | src/components/Board.tsx:85-91 | on a canvas at least 48 pixels each way, a dragged player or ball is stored strictly inside the pitch; the ball is drawn back exactly at the clamped pixel, and a player within half a pixel of it on each axis |
| Board.ClampedInsideUnit | src/components/Board.tsx:85-89 | a clamped point normalises to strictly inside the unit square |
| Board.StageClick | src/components/Board.tsx:94-117 | no mode or no pointer changes nothing; a first click starts the arrow at the pointer; a second emits one arrow from start to pointer, a pass iff in pass mode, curved only in run mode with curving on, and goes idle |
| Board.MouseMove | src/components/Board.tsx:119-126 | the ghost end follows the pointer only while an arrow is in progress, and the start never changes |
| Board.DrawingConsistent | src/components/Board.tsx:94-126 | clicks and moves keep the start and the ghost end set together |
| Board.TwoClicksDrawOneArrow | src/components/Board.tsx:101-116 | from idle, two clicks emit exactly one arrow, from the first pointer to the second, and end idle; the ghost line shows between the clicks and not after |
| Board.MovesDoNotShiftArrow | src/components/Board.tsx:101-126 | pointer moves between the clicks do not change the arrow |
| DrawToolbar.PressPass | src/components/DrawToolbar.tsx:54 | pass → none, none or run → pass |
| DrawToolbar.PressRun | src/components/DrawToolbar.tsx:64 | run → none, none or pass → run |
| DrawToolbar.CloseMode | src/components/DrawToolbar.tsx:84 | any mode → none |
| DrawToolbar.View | src/components/DrawToolbar.tsx:24-99 | Pass shows pressed iff in pass mode, Run iff in run mode, and "clear" is shown iff a handler is supplied |
| DrawToolbar.NeverBothPressed | src/components/DrawToolbar.tsx:24-25 | the two toggles never show pressed together, and neither does exactly when disarmed |
| DrawToolbar.TogglesFlip | src/components/DrawToolbar.tsx:53-64 | a toggle flips its own pressed state and releases the other; pressing one twice returns to the start unless the other was armed |
| DrawToolbar.ToolbarDrivesBoard | src/components/DrawToolbar.tsx:54-64 | after Pass the next arrow is a straight pass, after Run a run curved as the checkbox says, and after "close" a click does nothing |

## Left out

- Video capture is left out because it is browser I/O on opaque objects: MediaRecorder, canvas merging, `captureStream`, the Blob and the download (src/pages/PlayerPage.tsx:143-198). Only the tick's "stop requested" flag is kept.
- Animation-frame scheduling, effect clean-up and cancellation are host scheduling. The tick is a pure transition instead.
- React rendering, hooks, routing, `alert` and `navigate` are left out. The guards return result tags (alert / navigate with a payload) instead.
- The resize and orientation listeners, the page-scroll lock and the device pixel ratio of the board are browser side effects. `compute` is modelled as a function of the measured sizes.
- Board.MouseMove, Board.StageClick: a missing stage and a missing pointer are folded into one absent pointer, since both return early the same way.
- `midCurve`, the watermark, dash patterns and colours are rendering geometry that uses `Math.hypot`.
- The team panels, the logo and the player, ball and arrow node components are presentation.
- The random and clock parts of ids are parameters (`salt`, `stamp`, `arrowId`), not generated.
- IEEE-754 arithmetic is left out; everything is exact reals and unbounded integers, so a hex colour too long for a double to hold exactly is read exactly. Where a float product lands near a half, `Math.round` in `lighten` may differ from the exact result.
- Board.Normalise, Board.StageClick, Board.DragPlayer, Board.DragBall: the canvas size is required to be positive. A zero-size canvas divides by zero, giving infinities in JavaScript, and that case is not modelled.
- Playback.NumberOf: `Number()` quirks (whitespace, signs, exponents, hex, non-integers) are not modelled. A token counts as numeric only if all its characters are decimal digits.
- Color.ParseInt16: signs, leading whitespace and a "0x" prefix accepted by `parseInt` are not modelled.
- Color.Mix: the ratio is fixed at 0.35, because no caller passes another.
- Playback.Render: the player page's own hard-coded team colours are not part of the frame.

## Findings

| source | as written | input that shows it | evidently intended | confidence | as-written member | corrected member |
|---|---|---|---|---|---|---|
| src/pages/PlayerPage.tsx:132 | `onPlay` rewinds only when `sceneIndex >= scenes.length - 1`, but the ticks stop at index `scenes.length - 2` (line 112), so the rewind never fires | three scenes played to the end (index 1, progress 1, paused), then Play: playback resumes at index 1 and replays only the last segment | Play after a finished run starts over from scene 0 | medium; not executed | Playback.OnPlay, Playback.OnPlayNeverRewinds, Playback.ReplayAfterThreeScenes | Playback.OnPlayIntended, Playback.PlayAfterFinish |

The page model (`Playback.OnPlay`, used by `Playback.ThreeScenesPlayThrough`) keeps the code as written. `Playback.OnPlayIntended` is the corrected control, and `Playback.ControlsValid` and `Playback.PlayAfterFinish` cover it.
