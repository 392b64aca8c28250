# CNC G-code visualizer: a verified model of its core

This project models the core of a browser-based CNC G-code visualizer. The parts modelled:

- **G-code interpreter** (`GCodeParser`). It splits G-code text into lines, drops comments and
  reads the command words (`G0 X10 Y5 F300`). It keeps the modal state: position, feed, spindle
  speed, absolute or incremental, millimetres or inches, spindle on or off. It emits one segment
  per rapid or linear move and tessellates G2/G3 arcs into chords. It keeps a bounding box and
  computes the path statistics.
- **Playback controller.** It steps a toolhead marker along the segment list, one animation
  frame at a time.
- **Toolhead marker.** Its position cell, its size-dependent scale and its auto-hide rule.
- **Path renderer.** Its colouring rules and line-buffer layout.
- **Image-to-contour pipeline** (`ImageProcessor`). Brightness-threshold edge detection, a
  depth-first contour trace over 8-neighbours, Douglas-Peucker simplification, and fitting the
  contours onto the stock.
- **Time label** of the statistics panel (`formatTime`).

The modules:

| file | module | models |
|---|---|---|
| `js.dfy` | `Js` | JavaScript semantics the core relies on: NaN-able numbers, `a \|\| b` on numbers, `Math.min`/`Math.max` with infinities, `trim`, `split`, `toUpperCase`, `%` on reals, and an abstract `Math` library |
| `constants.dfy` | `Constants` | the shared types and constants of `lib/Constants.ts`, the command and comment regular expressions, and `parseFloat` on the strings the command regex yields |
| `gcode_spec.dfy` | `GcodeSpec` | the interpreter as functions on values: one function per handler and the per-line and whole-run transitions |
| `gcode_properties.dfy` | `GcodeProperties` | lemmas relating several steps or a whole parse |
| `gcode_parser.dfy` | `GcodeParser` | the class `GCodeParser`, whose methods update its fields in place and are proved equal to the functions of `GcodeSpec` |
| `toolhead.dfy` | `ThreeToolhead` | the class `Toolhead` |
| `playback.dfy` | `ThreePlayback` | playback as functions on a `Player` value, and the class `PlaybackController` proved equal to them |
| `path_renderer.dfy` | `ThreePaths` | colour rules, buffer layout, and the class `PathRenderer` |
| `image_geometry.dfy` | `ImageGeometry` | point-to-chord distance, Douglas-Peucker, scaling onto the stock |
| `image_processor.dfy` | `ImageProcessor` | edge detection and contour tracing over `array2<bool>` grids |
| `statistics_tab.dfy` | `StatisticsTab` | `formatTime` and the statistics panel's time cell |

Modelling conventions:

- **Numbers.**
  - JavaScript numbers become `real`.
  - A value that can be NaN (a parsed word, a feed, a spindle speed) is a `JsNum = NaN | Num(val)`.
  - The bounding box uses `Ext = NegInf | Fin | PosInf`, so that its initial `Infinity` / `-Infinity` are kept.
- **`Math.sqrt`, `hypot`, `atan2`, `cos`, `sin` and `log10`.** These are the fields of a record of
  function values, `Js.MathLib`, passed as a parameter.
  - `Js.Sound(lib)` states the only facts the proofs use: square roots of non-negative numbers are
    non-negative, the square root of 0 is 0, and `atan2` lies in (-π, π].
  - `Math.PI` is the literal 3.141592653589793.
- **Callbacks.** `onPositionUpdate`, `onStateChange` and `onPlaybackComplete`, and the path
  renderer's trailing hooks the controller calls, are recorded as one appended event log.
- **Coordinates.** The renderer and the toolhead map G-code (x, y, z) to three.js (x, z, y).

Behaviour of the code worth noting, which the model follows:

- **Inch mode (G20) also rescales carried-over axes.** The 25.4 conversion is applied after the
  target is resolved, so an axis absent from the line is multiplied by 25.4 as well.
  `GcodeProperties.InchRescalesCarriedAxes` and `InchCarryExample` show this.
- **A `(` later in a line is not a comment.** Only a line that starts with `(` is skipped.
- **The box grows only by the `to` points of segments.** The initial origin is not added.
  A program that starts at the origin and only rapids up to Z5 has a Z range of [5, 5], not
  [0, 5] (`GcodeProperties.ParseBoxIsHull`).
- **F and S words take effect after the line's motion.** `executeCommands` runs the G word
  before it reads F and S, so `G1 X10 F300` still cuts at the previous feed; the new feed holds
  from the next line on (`GcodeProperties.FeedAppliesAfterMotion`). A reader might expect the
  line's own F to apply to its motion; the code does not.
- **A full circle is not drawn as a loop.** With end point equal to start point, the end angle
  equals the start angle and the sweep is 0, so every tessellated point shares one XY
  (`GcodeProperties.FullCircleSweepsZero`).
- **`arcSegments: 0` means 60.** The option is read with `||`, so 0 falls back to the default;
  a negative count yields no chord points (`GcodeSpec.ArcSegmentsOf`).

## Model

| member | source | states |
|---|---|---|
| Constants.ValueRun | lib/Constants.ts:159 | the value part `[\d.]+` of a command word is the longest run of digits and dots at the start of the text |
| Constants.LetterEitherCase | lib/Constants.ts:159 | with the `i` flag a command word starts with any of G, M, X, Y, Z, I, J, K, F, S, R in upper or lower case, and with no other character |
| Constants.MatchAt | lib/Constants.ts:159 | a match of the command regex at a position is a command letter (either case) followed by a well-formed value with optional sign. The match is greedy: the next character is not a value character. No match has length 0. There is a match exactly when a command letter is followed by a digit or dot, or by a sign and then a digit or dot |
| Constants.Matches | lib/Constants.ts:159 | every token `matchAll` yields is a command letter plus a well-formed value; a line of n characters yields at most n/2 tokens |
| Constants.ValueRunOf | lib/Constants.ts:159 | a run of value characters followed by a non-value character (or the end) is exactly the value part the regex takes |
| Constants.MatchesWord | lib/Constants.ts:159 | a command letter, then any value text the group accepts (with or without a sign, led by a digit or a dot), then a non-value character: that word is the first match, and matching resumes after it |
| Constants.NoMatches | lib/Constants.ts:159 | the scan yields nothing exactly when the pattern matches at no position of the line |
| Constants.SignedWordExample | lib/Constants.ts:159 | `X-10` yields the one word X with the value text `-10` |
| Constants.MatchesSkip | lib/Constants.ts:159 | a character starts no match when it is not a command letter, or when it is not followed by a digit, a dot, or a sign and then a digit or dot |
| Constants.CommentStart | lib/Constants.ts:160 | the comment regex `;.*$`, which has no multiline flag, starts at the first `;` after which no line terminator follows |
| Constants.StripComment | lib/Constants.ts:160 | the `replace` keeps everything before that `;`; a line without `;` is unchanged |
| Constants.ParseUnsigned | lib/GcodeParser.ts:127 | `parseFloat` of an unsigned value text is NaN exactly when the text starts neither with a digit nor with `.` followed by a digit; otherwise it is non-negative |
| Constants.ParseFloat | lib/GcodeParser.ts:127 | a parsed value has the sign of its text: non-negative without a leading `-`, non-positive with one. A `+` or no sign reads as the unsigned rest, and a `-` gives its negation, so NaN stays NaN |
| Constants.ParseDecimalValue | lib/GcodeParser.ts:127 | digits, a dot, more digits, then anything but a digit read as the integer part plus the fraction digits over 10^(number of fraction digits). A second dot ends the number |
| Constants.ParseIntegerValue | lib/GcodeParser.ts:127 | digits followed by anything other than a digit or a dot read as their integer value |
| Constants.SecondDotEndsNumber | lib/GcodeParser.ts:127 | `parseFloat("1.2.3")` is 1.2 |
| Constants.NegativeValueExample | lib/GcodeParser.ts:127 | `parseFloat("-10")` is -10 |
| Constants.LeadingDotExample | lib/GcodeParser.ts:127 | `parseFloat(".5")` is 0.5 |
| Constants.TrailingDotExample | lib/GcodeParser.ts:127 | `parseFloat("5.")` is 5 |
| Constants.LoneDotIsNaN | lib/GcodeParser.ts:127 | `parseFloat(".")` is NaN |
| Js.OrElse | lib/GcodeParser.ts:233-234 | `v \|\| d` is `v` exactly when `v` is present, not NaN and non-zero, and `d` otherwise |
| Js.ExtMin | lib/GcodeParser.ts:336 | `Math.min(extended, x)` is below both arguments and equals one of them |
| Js.ExtMax | lib/GcodeParser.ts:337 | `Math.max(extended, x)` is above both arguments and equals one of them |
| Js.Trim | lib/GcodeParser.ts:68 | `trim` leaves no white space or line terminator at either end, and gives the empty string exactly when the line is all white space |
| Js.TrimStart | lib/GcodeParser.ts:114 | the leading white space removed by `trim` is exactly a prefix of white-space characters |
| Js.TrimEnd | lib/GcodeParser.ts:114 | the trailing white space removed by `trim` is exactly a suffix of white-space characters |
| Js.SplitPieces | lib/GcodeParser.ts:64 | `split('\n')` yields one piece more than there are newlines, and no piece contains a newline |
| Js.JoinSplit | lib/GcodeParser.ts:64 | joining the pieces of `split('\n')` with newlines gives the text back |
| Js.AsciiUpper | lib/GcodeParser.ts:126 | `toUpperCase` maps a lower-case ASCII letter to its own capital (code point minus 32) and leaves every other character unchanged |
| Js.Hypot3 | lib/three/PlaybackController.ts:88-92 | with a sound math library a 3-D length is non-negative, and zero for a zero displacement |
| GcodeSpec.ArcSegmentsOf | lib/GcodeParser.ts:60 | `options.arcSegments \|\| 60`: the option when it is present and non-zero, 60 otherwise; never 0 |
| GcodeSpec.CommandMapKeys | lib/GcodeParser.ts:121-132 | the keys of the command map are exactly the upper-cased letters of the line's words |
| GcodeSpec.CommandMapLastWins | lib/GcodeParser.ts:125-129 | when a letter occurs twice on a line, the value of its last word is kept |
| GcodeSpec.LineCommands | lib/GcodeParser.ts:111-117 | empty lines and lines that start with `;` or `(` are skipped. So is a line that is empty after the comment is cut and the rest trimmed. Any other line yields the command map of its cleaned text |
| GcodeSpec.WidenBox | lib/GcodeParser.ts:335-342 | `updateBBox` gives a box that contains the point and contains the old box; each bound is either the old bound or the point's coordinate |
| GcodeSpec.WidenAll | lib/GcodeParser.ts:264 | widening by a list of points contains the old box and every point of the list |
| GcodeSpec.RapidStep | lib/GcodeParser.ts:203-214 | G0 appends one rapid segment, with no feed or spindle, from the current position to the resolved target. It moves the position to the target and widens the box by the target |
| GcodeSpec.LinearStep | lib/GcodeParser.ts:216-229 | G1 appends one linear segment to the target carrying the feed in force. It carries the spindle speed if the spindle is on, else 0. It moves to the target and widens the box by it |
| GcodeSpec.Sweep | lib/GcodeParser.ts:280-286 | for angles in the range of `atan2`, a clockwise sweep lies in (-2π, 0] and a counter-clockwise sweep in [0, 2π). The sweep is zero exactly when the start and end angles are equal |
| GcodeSpec.ArcPoints | lib/GcodeParser.ts:270-303 | `generateArcPoints` returns `segments + 1` points; a negative count yields none |
| GcodeSpec.ArcPointsShape | lib/GcodeParser.ts:288-299 | the tessellation starts at the centre's height and ends exactly at `endZ`. With a zero sweep, every point has the same XY |
| GcodeSpec.Chords | lib/GcodeParser.ts:253-262 | one chord per pair of consecutive points. Chord k joins point k to point k+1 and carries the kind, feed, spindle, centre and radius |
| GcodeSpec.ArcStepFrom | lib/GcodeParser.ts:231-268 | the arc step equals the step built from the intermediate values `handleArc` computes: target, I/J offsets (`\|\| 0`), centre, start and end angles, and radius |
| GcodeSpec.ArcStepShape | lib/GcodeParser.ts:231-268 | G2/G3 appends exactly n chords without changing earlier segments. The chords join end to end and share the arc's direction, centre, radius, feed and spindle value. The box widens by exactly the chord ends, and the position becomes the target |
| GcodeSpec.GStepShape | lib/GcodeParser.ts:155-186 | unknown G codes, NaN and G17-G19 change nothing. G20/G21/G90/G91 flip exactly one flag. Motion codes only append segments, and their cutting segments carry the feed and spindle value in force. No G code changes the feed, the spindle speed or the spindle flag |
| GcodeSpec.MStep | lib/GcodeParser.ts:188-201 | M3 and M4 turn the spindle on and M5 turns it off; every other M code (M2 and M30 included) leaves the state unchanged. Only the spindle flag can change |
| GcodeSpec.ExecuteStepOrder | lib/GcodeParser.ts:134-153 | G runs before M, F and S. So F/S update the feed and spindle speed only for later lines, and the same line's motion uses the values in force before it. A line without G emits nothing and does not move |
| GcodeSpec.LineStep | lib/GcodeParser.ts:111-119 | a skipped line leaves the whole machine unchanged |
| GcodeSpec.RunLinesSnoc | lib/GcodeParser.ts:66-69 | running one more line is one more `parseLine` of that line, trimmed |
| GcodeSpec.Accumulate | lib/GcodeParser.ts:344-367 | total distance is rapid plus cut distance; with a sound square root both are non-negative |
| GcodeSpec.StatsOf | lib/GcodeParser.ts:369-372 | the written statistics have total = rapid + cut and keep the line count |
| GcodeSpec.ParseSpec | lib/GcodeParser.ts:59-78 | a parse's statistics satisfy total = rapid + cut |
| GcodeProperties.ParseLineCount | lib/GcodeParser.ts:64-67 | `lineCount` is the number of newlines plus one, blank and comment lines included |
| GcodeProperties.ParenthesesAreNotCommentsMidLine | lib/GcodeParser.ts:112-114 | a trimmed line without `;` that does not start with `(` is tokenised whole, parentheses included |
| GcodeProperties.AbsoluteIgnoresPosition | lib/GcodeParser.ts:305-326 | in absolute mode a written axis gets the same value from any tool position |
| GcodeProperties.MetricStaysPut | lib/GcodeParser.ts:305-326 | in metric mode a line with no axis words, or an incremental move by zero, leaves the target at the current position |
| GcodeProperties.AxisWords | lib/GcodeParser.ts:311-317 | the words X, Y and Z of a point are present with exactly its coordinates |
| GcodeProperties.InchRoundTrip | lib/GcodeParser.ts:320-324 | an absolute inch move to v reaches the same millimetre target as the metric move to 25.4·v |
| GcodeProperties.InchRescalesCarriedAxes | lib/GcodeParser.ts:306-324 | in inch mode an axis missing from the line is also multiplied by 25.4, so a non-zero carried coordinate changes |
| GcodeProperties.InchCarryExample | lib/GcodeParser.ts:306-324 | `G0 X1` in inch mode from (0, 10, 0) lands at (25.4, 254, 0) |
| GcodeProperties.IncrementalIsRelativeAbsolute | lib/GcodeParser.ts:310-318 | in metric mode an incremental move by d reaches the same target as the absolute move to position + d |
| GcodeProperties.FeedAppliesAfterMotion | lib/GcodeParser.ts:138-148 | `G1 X10 F300` from the start cuts at the old feed 600 with spindle 0; the feed is 300 afterwards |
| GcodeProperties.SpindleAppliesAfterMotion | lib/GcodeParser.ts:138-144 | `M3 G1 X10` with the spindle off records spindle 0 on the move; the spindle is on afterwards |
| GcodeProperties.ExtendHull | lib/GcodeParser.ts:335-342 | when a step appends segments and widens the box by exactly their ends, the box stays the hull of all `to` points |
| GcodeProperties.GStepWidensByEnds | lib/GcodeParser.ts:155-268 | every G code widens the box by exactly the ends of the segments it appends |
| GcodeProperties.LineStepHull | lib/GcodeParser.ts:111-119 | one line keeps the box equal to the hull of the segment ends |
| GcodeProperties.RunLinesHull | lib/GcodeParser.ts:66-69 | a run of lines keeps the box equal to the hull of the segment ends |
| GcodeProperties.ParseBoxIsHull | lib/GcodeParser.ts:59-78 | the parse's box is exactly the empty box widened by every segment's `to` point, in order |
| GcodeProperties.LineStepMonotone | lib/GcodeParser.ts:111-119 | a line never shrinks the box and never removes or rewrites an emitted segment |
| GcodeProperties.RunLinesPrefix | lib/GcodeParser.ts:66-69 | the segments emitted after any number of lines are a prefix of the final segment list |
| GcodeProperties.ArcStepDirection | lib/GcodeParser.ts:280-288 | with a positive count the angle step has the sign of the commanded direction, and n steps add up to the sweep |
| GcodeProperties.FullCircleSweepsZero | lib/GcodeParser.ts:280-299 | an arc whose end angle equals its start angle, such as a full circle back to the start, tessellates to points with one common XY |
| GcodeProperties.AccumulateAppend | lib/GcodeParser.ts:350-367 | the sums over a concatenation are the sums of the parts |
| GcodeProperties.AccumulateOne | lib/GcodeParser.ts:351-366 | a single segment adds its length to the rapid or the cut distance by its kind. Its time is length/6000 for a rapid and length/(feed \|\| 600) otherwise |
| GcodeProperties.MinutesNonNegative | lib/GcodeParser.ts:359-366 | with positive feeds the total time is non-negative |
| GcodeProperties.ParseStatistics | lib/GcodeParser.ts:344-373 | a parse has total = rapid + cut, with both non-negative. The estimated time is 60 times the summed minutes, and it is non-negative when every feed is positive |
| GcodeParser.GCodeParser.Parse | lib/GcodeParser.ts:59-78 | `parse` returns exactly `ParseSpec` of the text and option, and leaves the object's fields equal to the result |
| GcodeParser.GCodeParser.ParseLines | lib/GcodeParser.ts:66-69 | the loop leaves the machine at the run of all lines and the line count at the number of lines |
| GcodeParser.GCodeParser.ResetState | lib/GcodeParser.ts:80-109 | resets to the origin, feed 600, spindle 12000, absolute, metric, spindle off, no segments, the empty box and zero statistics |
| GcodeParser.GCodeParser.constructor | lib/GcodeParser.ts:28-57 | a new parser is in the reset state |
| GcodeParser.GCodeParser.ParseLine | lib/GcodeParser.ts:111-119 | the object changes as `LineStep` says; the statistics are untouched |
| GcodeParser.GCodeParser.ExtractCommands | lib/GcodeParser.ts:121-132 | returns the command map of the line's regex matches |
| GcodeParser.GCodeParser.StoreMatches | lib/GcodeParser.ts:125-129 | the loop stores each match's upper-cased letter and parsed value in order |
| GcodeParser.GCodeParser.ExecuteCommands | lib/GcodeParser.ts:134-153 | the object changes as `ExecuteStep` says |
| GcodeParser.GCodeParser.HandleGCode | lib/GcodeParser.ts:155-186 | the object changes as `GStep` says |
| GcodeParser.GCodeParser.HandleMCode | lib/GcodeParser.ts:188-201 | only the spindle flag changes, as `MStep` says |
| GcodeParser.GCodeParser.HandleRapid | lib/GcodeParser.ts:203-214 | the object changes as `RapidStep` says |
| GcodeParser.GCodeParser.HandleLinearMove | lib/GcodeParser.ts:216-229 | the object changes as `LinearStep` says |
| GcodeParser.GCodeParser.HandleArc | lib/GcodeParser.ts:231-268 | the object changes as the arc step says |
| GcodeParser.GCodeParser.AddChords | lib/GcodeParser.ts:253-265 | appends exactly the chords of the points and widens the box by their ends; the position is unchanged |
| GcodeParser.GCodeParser.GenerateArcPoints | lib/GcodeParser.ts:270-303 | the points pushed by the loop are `ArcPoints` |
| GcodeParser.GCodeParser.GetNewPosition | lib/GcodeParser.ts:305-327 | returns the resolved target of `TargetOf` |
| GcodeParser.GCodeParser.UpdatePosition | lib/GcodeParser.ts:329-333 | only the position changes |
| GcodeParser.GCodeParser.UpdateBBox | lib/GcodeParser.ts:335-342 | only the box changes, widened by the point |
| GcodeParser.GCodeParser.CalculateStatistics | lib/GcodeParser.ts:344-373 | writes `StatsOf` of the segments and keeps the line count; nothing else changes |
| ThreeToolhead.AutoScaleFor | lib/three/Toolhead.ts:54-71 | the stored auto-scale always lies in [0.5, 100]. It is the raw band value when that is in range, and otherwise the violated bound |
| ThreeToolhead.AutoScaleBands | lib/three/Toolhead.ts:57-69 | below size 5 the scale is 0.5, and below 100 it is 0.1·size. From 100 to 500 it is 0.03·size, and from 500 to 5000 it is 0.01·size |
| ThreeToolhead.AutoScaleDropsAtBands | lib/three/Toolhead.ts:57-62 | the rule is not monotone: 99 → 9.9 but 100 → 3, and 499 → 14.97 but 500 → 5 |
| ThreeToolhead.Rendered | lib/three/Toolhead.ts:96-107 | the three.js position of a G-code point swaps Y and Z |
| ThreeToolhead.Toolhead.constructor | lib/three/Toolhead.ts:5-52 | a new toolhead is at the origin, visible, at scale 1 with multiplier 1 |
| ThreeToolhead.Toolhead.Scale | lib/three/Toolhead.ts:54-75 | stores the clamped auto-scale and re-applies the scale; position, multiplier and visibility are unchanged |
| ThreeToolhead.Toolhead.SetSizeMultiplier | lib/three/Toolhead.ts:77-80 | stores the multiplier; the group scale becomes auto-scale times multiplier |
| ThreeToolhead.Toolhead.ApplyScale | lib/three/Toolhead.ts:82-85 | the group scale becomes auto-scale times multiplier; nothing else changes |
| ThreeToolhead.Toolhead.AutoHideForLargeObject | lib/three/Toolhead.ts:87-94 | hides and returns true exactly when the object is larger than 500 and the toolhead was visible; otherwise it changes nothing |
| ThreeToolhead.Toolhead.SetPosition | lib/three/Toolhead.ts:96-101 | stores (x, y, z) and shows it at (x, z, y) |
| ThreeToolhead.Toolhead.SetPositionXYZ | lib/three/Toolhead.ts:103-107 | stores (x, y, z) and shows it at (x, z, y) |
| ThreeToolhead.Toolhead.GetPosition | lib/three/Toolhead.ts:109-111 | returns the stored position, whose rendering is the group position |
| ThreeToolhead.Toolhead.SetVisible | lib/three/Toolhead.ts:113-115 | sets only the visibility |
| ThreeToolhead.Toolhead.IsVisible | lib/three/Toolhead.ts:117-119 | returns the visibility |
| ThreeToolhead.PositionRoundTrip | lib/three/Toolhead.ts:103-119 | setting a position and visibility and reading them back returns exactly what was stored |
| ThreePlayback.StateOf | lib/three/PlaybackController.ts:190-198 | paused means stopped past the first segment. Progress lies in [0, 1], is 0 on an empty list, and is 1 exactly at the end of the list |
| ThreePlayback.ResetStep | lib/three/PlaybackController.ts:42-65 | reset stops at index 0 with progress 0 and puts the tool at the first segment's start, or at the origin; the list and the speed are unchanged. It emits three events in order: the home position, with the first segment's `feed \|\| 0` (0 with no segments) and its spindle flag; the trailing reset; and a state that is neither playing nor paused, with progress 0 |
| ThreePlayback.SetSegmentsStep | lib/three/PlaybackController.ts:24-27 | the new list, reset |
| ThreePlayback.PlayStep | lib/three/PlaybackController.ts:29-35 | on an empty list play does nothing and reports nothing; otherwise it sets playing and reports the state |
| ThreePlayback.PauseStep | lib/three/PlaybackController.ts:37-40 | pause only clears the playing flag, and reports the state |
| ThreePlayback.Advance | lib/three/PlaybackController.ts:100-103 | the clamped progress lies in [0, 1] |
| ThreePlayback.Lerp | lib/three/PlaybackController.ts:123-126 | the interpolated point is the start at 0 and the end at 1 |
| ThreePlayback.AdvanceCompletes | lib/three/PlaybackController.ts:105-120 | a completed segment snaps the tool to its end, advances the index and restarts progress. Reaching the end stops playback with a completion event |
| ThreePlayback.AdvanceMoves | lib/three/PlaybackController.ts:121-141 | an incomplete segment moves the tool to the interpolated point and reports it |
| ThreePlayback.TickKeepsInv | lib/three/PlaybackController.ts:71-142 | a frame keeps progress in [0, 1) and the index in range. It never changes the list or the speed, and advances the index by at most one |
| ThreePlayback.TickIdleAndEnd | lib/three/PlaybackController.ts:72-81 | a frame does nothing unless playing with a non-empty list; at the end it only stops and reports completion |
| ThreePlayback.TickMotion | lib/three/PlaybackController.ts:83-127 | within a segment the tool is at from + (to − from)·progress. Completion puts the tool at the segment end and notifies the trailing hook. Completion is reported exactly after the last segment |
| ThreePlayback.ZeroSpeedFreezes | lib/three/PlaybackController.ts:96-103 | speed 0 freezes the index and the progress |
| ThreePlayback.IncrementPositive | lib/three/PlaybackController.ts:95-99 | a positive feed and speed give a positive progress increment |
| ThreePlayback.SegmentCompletes | lib/three/PlaybackController.ts:95-110 | with positive speed and feed, the current segment completes after finitely many frames |
| ThreePlayback.TicksAdd | lib/three/PlaybackController.ts:71-142 | j frames followed by k frames are j + k frames |
| ThreePlayback.PlaybackFinishes | lib/three/PlaybackController.ts:71-142 | with positive speed and feeds, finitely many frames play the list to the end and stop |
| ThreePlayback.PlayFromResetFinishes | lib/three/PlaybackController.ts:29-142 | reset then play on a non-empty list with positive speed and feeds reaches the end |
| ThreePlayback.NonPositiveSpeedStays | lib/three/PlaybackController.ts:96-103 | with speed ≤ 0 a segment at progress 0 never starts to move |
| ThreePlayback.TicksMonotone | lib/three/PlaybackController.ts:71-142 | over any number of frames the index never decreases and the list never changes |
| ThreePlayback.PlaybackController.constructor | lib/three/PlaybackController.ts:5-22 | empty list, index 0, stopped, speed 1, progress 0, no events |
| ThreePlayback.PlaybackController.SetSegments | lib/three/PlaybackController.ts:24-27 | state and events as `SetSegmentsStep` |
| ThreePlayback.PlaybackController.Play | lib/three/PlaybackController.ts:29-35 | state and events as `PlayStep` |
| ThreePlayback.PlaybackController.Pause | lib/three/PlaybackController.ts:37-40 | state and events as `PauseStep` |
| ThreePlayback.PlaybackController.Reset | lib/three/PlaybackController.ts:42-65 | state and events as `ResetStep` |
| ThreePlayback.PlaybackController.SetSpeed | lib/three/PlaybackController.ts:67-69 | only the speed changes; no event |
| ThreePlayback.PlaybackController.Update | lib/three/PlaybackController.ts:71-142 | state and events as one `Tick` |
| ThreePlayback.PlaybackController.AdvanceSegment | lib/three/PlaybackController.ts:83-141 | state and events as the motion part of a tick |
| ThreePlayback.PlaybackController.ReportPosition | lib/three/PlaybackController.ts:129-139 | reports the toolhead's own position with the feed and the spindle flag |
| ThreePlayback.PlaybackController.CompleteSegment | lib/three/PlaybackController.ts:105-113 | snaps the tool to the end, advances the index, restarts progress and notifies the trailing hook |
| ThreePlayback.PlaybackController.EmitPositionUpdate | lib/three/PlaybackController.ts:164-176 | appends one position event with the feed `\|\| 0` and the current segment's spindle flag |
| ThreePlayback.PlaybackController.EmitStateChange | lib/three/PlaybackController.ts:178-188 | appends one state event carrying `StateOf` |
| ThreePlayback.PlaybackController.GetState | lib/three/PlaybackController.ts:190-198 | returns `StateOf` of the controller |
| ThreePaths.FromHex | lib/three/PathRenderer.ts:76 | a hex colour gives components in [0, 1] |
| ThreePaths.ColorLerp | lib/three/PathRenderer.ts:126 | the blend is the base colour at 0 and the target colour at 1 |
| ThreePaths.DefaultColor | lib/three/PathRenderer.ts:73-85 | rapids get the rapid colour, linear cuts the linear colour, and both arc kinds the arc colour |
| ThreePaths.PaletteValues | lib/Constants.ts:145-157 | the palette hex values decode to red, green, blue, white and the rapid yellow |
| ThreePaths.AxisColorMeaning | lib/three/PathRenderer.ts:87-105 | each axis-mode colour means exactly one thing. Rapid yellow is a rapid. Red, green or blue is a cut whose X, Y or Z travel is strictly largest. White is a cut with a tie for largest |
| ThreePaths.ProgressiveBlend | lib/three/PathRenderer.ts:107-127 | a cut is white blended toward red (more X than Y travel) or green by index/count, which lies in [0, 1). The first cut is white, and every colour is valid |
| ThreePaths.LerpInCube | lib/three/PathRenderer.ts:126 | blending two valid colours by t in [0, 1] gives a valid colour |
| ThreePaths.PositionBufferAt | lib/three/PathRenderer.ts:36-42 | segment i owns position numbers 6i to 6i+6: from, then to, each as (x, z, y) |
| ThreePaths.ColorBufferAt | lib/three/PathRenderer.ts:36-46 | segment i owns colour numbers 6i to 6i+6: its colour in the current mode, twice |
| ThreePaths.PathRenderer.constructor | lib/three/PathRenderer.ts:12-16 | no segments, default mode, nothing drawn, group in the scene |
| ThreePaths.PathRenderer.SetSegments | lib/three/PathRenderer.ts:18-20 | stores the list and redraws nothing |
| ThreePaths.PathRenderer.SetColorMode | lib/three/PathRenderer.ts:22-25 | stores the mode; a non-empty list is shown again in the new mode, and an empty list leaves the drawing unchanged |
| ThreePaths.PathRenderer.Rebuild | lib/three/PathRenderer.ts:145-149 | redraws only when there are segments |
| ThreePaths.PathRenderer.ClearPaths | lib/three/PathRenderer.ts:129-143 | removes every drawn child |
| ThreePaths.PathRenderer.BuildVisuals | lib/three/PathRenderer.ts:27-59 | the drawing is one line set holding exactly the position and colour buffers of the list, or nothing for an empty list |
| ThreePaths.PathRenderer.Dispose | lib/three/PathRenderer.ts:151-154 | clears the drawing and detaches the group |
| ImageGeometry.SquaredDistance | lib/ImageProcessor.ts:189 | a squared distance is non-negative, and zero from a point to itself |
| ImageGeometry.PerpendicularDistance | lib/ImageProcessor.ts:184-192 | with a sound math library the distance is non-negative. For a zero-length chord it is the distance to its start |
| ImageGeometry.ChordEndsOnChord | lib/ImageProcessor.ts:184-192 | both ends of a chord are at distance 0 from it |
| ImageGeometry.Farthest | lib/ImageProcessor.ts:163-173 | the scan's maximum is non-negative, and its index is 0 exactly when no point is at a positive distance |
| ImageGeometry.FarthestFacts | lib/ImageProcessor.ts:163-173 | the scan finds the first point of greatest distance |
| ImageGeometry.Simplify | lib/ImageProcessor.ts:160-182 | lists of fewer than 3 points are unchanged. Otherwise the result has 2 to n points and keeps the first and last points |
| ImageGeometry.SplitAt | lib/ImageProcessor.ts:175-179 | the split branch keeps both ends, and the shared split point appears once |
| ImageGeometry.SimplifyPositions | lib/ImageProcessor.ts:160-182 | the kept points are the input read at strictly increasing positions, from the first to the last |
| ImageGeometry.SimplifyIsSubsequence | lib/ImageProcessor.ts:160-182 | the simplified contour is a subsequence of the traced one |
| ImageGeometry.AllCloseKeepsEnds | lib/ImageProcessor.ts:175-181 | when no interior point lies beyond epsilon, only the two ends remain |
| ImageGeometry.FarFirstMaximumKept | lib/ImageProcessor.ts:163-178 | when some interior point lies beyond epsilon, the split is at the first point of greatest distance, and that point survives |
| ImageGeometry.DouglasPeucker | lib/ImageProcessor.ts:160-182 | the loop-and-recursion method returns exactly `Simplify` with the perpendicular distance |
| ImageGeometry.StockScale | lib/ImageProcessor.ts:206-208 | the scale is the smaller of the two stock-to-image ratios |
| ImageGeometry.ScaleContoursToStock | lib/ImageProcessor.ts:197-220 | every contour keeps its point count and its closed flag |
| ImageGeometry.OriginPlacement | lib/ImageProcessor.ts:206-219 | every point becomes (x·s + ox, y·s + oy), with s the stock scale. The offset ox is 0, w/2 or w for a left, centre or right origin, and oy is 0, h/2 or h for top, centre or bottom |
| ImageGeometry.ScalingIsUniform | lib/ImageProcessor.ts:206-219 | any two points of a contour move apart by the same factor on both axes |
| ImageGeometry.TopLeftFitsStock | lib/ImageProcessor.ts:197-220 | with the origin at the top left, an image-sized drawing lands inside the stock |
| ImageProcessor.GetBrightness | lib/ImageProcessor.ts:92-95 | brightness is the mean of red, green and blue, in [0, 255] |
| ImageProcessor.PixelIndex | lib/ImageProcessor.ts:70 | a pixel inside the image has its four bytes inside the data |
| ImageProcessor.EdgeNeighbours | lib/ImageProcessor.ts:75-82 | the `some` test is true exactly when the left, right, upper or lower neighbour is brighter than the threshold |
| ImageProcessor.DetectEdges | lib/ImageProcessor.ts:64-90 | returns a fresh height×width grid that is true exactly at the interior pixels darker than the threshold with a brighter 4-neighbour |
| ImageProcessor.DetectRow | lib/ImageProcessor.ts:69-86 | one row becomes its edge pixels; the other rows are unchanged |
| ImageProcessor.EdgeAt | lib/ImageProcessor.ts:70-84 | the test of one pixel is the edge predicate |
| ImageProcessor.NeighboursAreAdjacent | lib/ImageProcessor.ts:131 | the eight directions are exactly the 8-neighbours |
| ImageProcessor.TraceContour | lib/ImageProcessor.ts:121-155 | the trace holds distinct, previously unvisited edge pixels, and the visited grid gains exactly them. It is empty exactly when the start is not an unvisited edge pixel. Otherwise it starts there and each later point neighbours an earlier one. The contour is the simplified trace, closed when it has more than 10 points |
| ImageProcessor.Walk | lib/ImageProcessor.ts:133-146 | the depth-first loop ends with the walk invariant on an empty stack, and with visited equal to the earlier cells plus the trace |
| ImageProcessor.WalkDone | lib/ImageProcessor.ts:133-146 | on an empty stack every edge neighbour of the trace is visited, and the trace is a whole 8-connected component |
| ImageProcessor.TraceIsComponent | lib/ImageProcessor.ts:133-146 | a trace closed under edge neighbours, outside components visited earlier, is itself whole components |
| ImageProcessor.AddTrace | lib/ImageProcessor.ts:104-111 | a new component disjoint from earlier traces extends the partition |
| ImageProcessor.KeptMembers | lib/ImageProcessor.ts:108-110 | a contour is kept exactly when it has more than 5 points |
| ImageProcessor.KeptIsFilter | lib/ImageProcessor.ts:108-110 | the kept contours appear in their original order |
| ImageProcessor.KeptDisjoint | lib/ImageProcessor.ts:100-116 | kept contours each have more than 5 points, all their points are pixel coordinates of edge pixels, and no two share a point |
| ImageProcessor.TraceFrom | lib/ImageProcessor.ts:106-107 | tracing from an unvisited edge pixel yields a whole component that starts at it and is disjoint from the earlier visits |
| ImageProcessor.ScanOrderStep | lib/ImageProcessor.ts:105-111 | a trace started at the scan position, from pixels not traced before, starts at its first pixel in row-major order and after every earlier trace's start |
| ImageProcessor.VisitPixel | lib/ImageProcessor.ts:105-111 | one pixel of the scan keeps the scan invariant and the scan order, and advances by one pixel |
| ImageProcessor.ScanDone | lib/ImageProcessor.ts:104-113 | after the scan the traces cover exactly the edge pixels |
| ImageProcessor.TraceContours | lib/ImageProcessor.ts:100-116 | the traces partition the edge pixels into whole 8-connected components, and the result is their kept contours in the order of the traces. Each trace starts at its first pixel in row-major order, and the starts strictly increase in that order |
| StatisticsTab.TimeDecomposition | components/tabs/StatisticsTab.tsx:11-13 | for a non-negative time the hours are non-negative and the minutes and seconds lie in [0, 60). 3600·h + 60·m + s is the whole number of seconds |
| StatisticsTab.NatToStringDigits | components/tabs/StatisticsTab.tsx:14 | `toString` of a natural number gives decimal digits without a leading zero that read back as the number; it is one character exactly below 10 |
| StatisticsTab.PaddedTwoDigits | components/tabs/StatisticsTab.tsx:14 | `padStart(2, '0')` of a value below 60 is exactly its tens and units digits |
| StatisticsTab.FormatTimeLayout | components/tabs/StatisticsTab.tsx:10-15 | for a non-negative time the text is the hours, a colon, two minute digits, a colon and two second digits; each field reads back as its value |
| StatisticsTab.FormatTimeExamples | components/tabs/StatisticsTab.tsx:10-15 | 90 s prints as `0:01:30` and 3665.5 s as `1:01:05` |
| StatisticsTab.EstimatedTimeText | components/tabs/StatisticsTab.tsx:42 | without statistics the cell shows `0:00:00` |

## Left out

- IEEE doubles are modelled as exact reals. Rounding, signed zero, overflow to Infinity, and the
  Float32 buffers handed to three.js are not modelled.
- A coordinate value (X, Y or Z) that `parseFloat` turns into NaN (for instance `X.`) is treated
  as an absent word: the axis keeps its value. In the source the NaN would propagate into the
  position. A NaN I or J becomes 0 through `|| 0`, as in the source (`GcodeSpec.Offset`).
- `Math.sqrt`, `Math.hypot`, `atan2`, `cos`, `sin` and `log10` are abstract function values.
  Only the facts in `Js.Sound` are assumed of them, so nothing is proved about the actual arc
  geometry or the log-band scale above size 5000.
- `arcSegments` is an integer. A non-integer option is not modelled.
- `console.log` calls, `performance.now()` and `lastUpdateTime` are left out. Playback is
  frame-based, so time plays no role in it.
- Scene-graph and GPU work is left out: `Toolhead.create`, `getGroup`, `dispose`, materials,
  geometry disposal and the THREE colour-space conversion. `PathRenderer` keeps its drawing as a
  list of position/colour buffer pairs.
- The trailing hooks `resetProgressiveTrailing` and `updateProgressiveTrailing` are not defined in
  lib/three/PathRenderer.ts. The controller's calls to them are recorded as events.
- Callbacks that are unset are not distinguished from set ones: every event is appended to the log.
- The unused helpers `calculateSegmentLength`, `interpolatePosition` and `updateToolheadPosition`
  of lib/three/PlaybackController.ts are not modelled; `update` does not call them.
- The branch of `update` for `currentSegmentIndex >= segments.length` is modelled. The model's
  `Tick` also sends a negative index down this branch. The source tests only `>= length`, and
  with a negative index it would read `segments[-1]` (undefined) and throw. The invariant `Inv`
  shows that no reachable state has a negative index, so the two agree on every reachable state.
- `getSegmentColor` and `getDefaultColor` have fallback returns. Every colour mode and segment
  kind is handled by an earlier branch, so these fallbacks cannot be reached and are not modelled.
- The `detectImageEdges` shell is not modelled: image loading, canvas drawing and the Promise
  (lib/ImageProcessor.ts lines 19-59).
- `ImageProcessor.TraceContour`: the eight neighbours are pushed as one append in the order of
  `directions`, not by an inner loop.
- `ImageProcessor.DetectEdges`: the `some` over the four neighbours is a predicate on the
  list, not a loop.
- `ImageGeometry.Simplify` requires epsilon ≥ 0. With a negative epsilon the source splits forever
  on a straight run, and the only call uses 2.
- `ImageGeometry.ScaleContoursToStock` requires non-zero image dimensions. The source would divide
  by zero and produce Infinity or NaN coordinates.
- `StatisticsTab.FormatTimeLayout` and `StatisticsTab.TimeDecomposition` are stated for
  non-negative times only. A negative time, NaN or Infinity is not covered.
- The other cells of `StatisticsTab` (`toFixed(2)` distances and the `toLocaleString` line count)
  are not modelled.
