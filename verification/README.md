# TabletMagic: model of the tablet daemon and of its preference pane

This project models the path from the serial line to mouse events in the TabletMagic daemon,
and the pieces of the preference pane that share data with it.

* `Bytes`, `Framer`, `Resync`, `Ledger`, `TextLines`, `SerialStream`, `ReadLine`, `FramersAgree`:
  the two framers that cut the byte stream into packets and replies. `Framer.Step` says what one
  byte does; `SerialStream.StreamReader` is the daemon's loop over read buffers, working in place
  on its phrase buffer; `ReadLine` is the port's own line reader.
* `Stylus`, `StylusRuns`, `EndToEnd`: the stylus record, the Wacom IV and TabletPC decoders, and
  what a list of pen samples does to the pen when it is sent, framed and decoded.
* `Events`, `EventRuns`, `Alternation`, `Clicks`, `Moves`, `Proximity`, `Pipeline`, `EventPoster`,
  `Service`: the
  event generator. `Events.Post` is one call; the run modules prove what every sequence of calls
  posts; `EventPoster.Poster` is the generator on its button arrays, remembered stylus and drag
  flag; `Service.Serve` runs reader, decoder and generator together.
* `Pointer`, `Rescale`: where the pointer goes, and what changes of tablet scale and screen size
  do to the mapped areas.
* `Text`, `Settings`, `Pane`, `Geometry`, `Setups`: printing and scanning of numbers, the 32-bit settings
  word as the daemon and the pane read and write it, the geometry message both ways, and what an
  imported setup means for framing and decoding.
* `AreaChooser`, `Presets`: the rectangle chooser with its aspect constraint, and the list of
  presets with its menu.
* `Failures`: byte streams that the daemon can receive, and a report that the pane can receive, on
  which a promise fails.

Code that changes state in place is a class or a method with loops, proved against a function on
values (`Run`, `TakeAll`, `Decode13`, `Post`, `Stored`, `Receive`, ...). The lemmas are about those
functions and about runs of them. Bytes are integers below 256, and the source's masks and shifts
are written as divisions and remainders; sixteen-bit cuts and signed characters are explicit.
Coordinates and ratios that the source keeps in floating point are exact reals.

Some of what the source promises fails in particular cases. Such a lemma says exactly when the
promise holds:

* A reply is cut short at its third comma when the tablet cannot parse setup strings, so the two
  framers agree only without one (`FramersAgree.FramersAgreeUnlessCut`; a model reply that is cut:
  `Failures.ModelReplyIsCut`).
* In mouse mode an eraser that arrives outside the mapped area keeps its flag off the tablet
  (`StylusRuns.EraserFlagSurvives`).
* A release of the grab button that coincides with a change of button 1, or that drops while
  button 1 is held, breaks the alternation of left events (`Alternation.GrabMachine`). Letting it
  go by lifting the pen presses the left button outside proximity (`Proximity.PressesAreBracketed`).
  Two packets show both (`Failures.LiftPressesTwice`, `Failures.LiftPressesOutside`).
* The pointer of mouse mode is moved again by the last motion after a panic, or after a packet of a size
  that is not taken (`Pipeline.MotionAfterInput`, `StylusRuns.IVMotionIsStroke`), and on a mapped side
  of fractional size more motion can take it less far (`Pointer.MouseMonotone`).
* A mapped tablet area given without its last bound has the size of the whole tablet wherever it
  starts (`Geometry.NotGiven`).
* In mouse mode the pointer keeps to the size of the mapped screen area but not to its place
  (`Pointer.MouseModeIgnoresOrigin`).
* The pane's menus offer neither every command set nor every parity or terminator, five baud rates
  share two bits, and its number fields are of limited width (`Pane.DaemonPaneDaemon`,
  `Pane.PaneRoundTrip`, `Pane.PaneReadsDaemon`).
* The prefix of a setup command is skipped only for banks of one digit (`Settings.PrefixIsSkipped`).
* Taking everything under a square constraint gives no square when the bounds are higher than wide
  (`AreaChooser.SquareReset`).
* Matching a report against presets ignores the tip's button, never succeeds when that button is
  none, and fails when the daemon has another mouse scaling than the preset, because the geometry
  message never sets it (`Presets.AnswerMatchesItself`). A report about another preset than the
  active one overwrites the active one (`Presets.ReportChangesActive`), and the menu may then show
  a name that no preset has (`Presets.ReportKeepsMenu`; two presets and a report with which it does:
  `Failures.ReportLosesName`).
* A Wacom IV setup with tilt stops every packet of a tablet whose ROM reports no tilt
  (`Setups.SetupLetsSamplesThrough`). A TabletPC that is sent any setup no longer has its own
  decoder, and after its own settings none at all (`Setups.NoSetupIsForTabletPC`,
  `Setups.OwnSetupSilencesTabletPC`).
* The motion between two reports is lost when the first has the position that stands for none
  (`Proximity.SentinelLosesMotion`; a run that loses some: `Proximity.MotionIsLost`).
* A mapped tablet area shorter than one unit maps pens outside the screen area
  (`Pointer.AbsoluteStaysInside`), and on a screen area left of or above the origin truncation does
  (`Pointer.PixelsStayInside`).

## Model

| member | source | states |
|---|---|---|
| Framer.RunConcat | daemon/SerialDaemon.cpp:1539-1690 | framing two pieces of a stream one after the other gives what framing them together gives |
| Framer.RunKeepsInv | daemon/SerialDaemon.cpp:1561-1664 | in every reachable state a binary phrase is one header byte and low bytes, shorter than the size that ends it, and fewer than three commas have been counted |
| Framer.DeliversExactlyTheFrames | daemon/SerialDaemon.cpp:1561-1637 | from power-up the binary packets delivered are exactly the frames that an independent reading of the stream finds by looking back from each byte |
| Framer.StepTracks | daemon/SerialDaemon.cpp:1561-1637 | the framer is inside a packet exactly when a header lies among the last bytes, and its phrase is the stream from that header on |
| Resync.RunUnits | daemon/SerialDaemon.cpp:1561-1637 | from every reachable state a list of packets is delivered one for one after at most one leftover phrase; only a last TabletPC data packet still waits |
| Resync.SelfSynchronises | daemon/SerialDaemon.cpp:1561-1637 | after any garbage a list of packets comes out unchanged and last, and a tablet other than a TabletPC leaves the framer idle |
| Resync.TrailingHeaderReleases | daemon/SerialDaemon.cpp:1561-1596 | one more header byte releases a waiting TabletPC packet |
| Resync.InfoComesOut | daemon/SerialDaemon.cpp:1608-1637 | an information reply of a TabletPC comes out at its eleventh byte, whatever came before |
| Ledger.ConservesBytes | daemon/SerialDaemon.cpp:1561-1664 | the stream is, in order, the bytes delivered, the truncated binary phrases, the skipped newlines and the pending phrase; nothing else is delivered, and inside a packet the phrase is shorter than the packet |
| TextLines.LineDelivered | daemon/SerialDaemon.cpp:1598-1664 | a text line with any number of newlines after it is delivered once: as a packet without terminator if it is an ASCII tablet's data line, else as a reply ending in a carriage return; only a reply with three counted commas is cut, as FramersAgree.FramerReadsLine says |
| TextLines.LinesDelivered | daemon/SerialDaemon.cpp:1598-1664 | text lines come out one for one and in order |
| TextLines.AnyEndDelivers | daemon/SerialDaemon.cpp:1598-1603 | a carriage return, a line feed, or both in either order end a line once |
| SerialStream.StreamReader.BeginPacket | daemon/SerialDaemon.cpp:1561-1596 | a header hands on the phrase so far, if it is a reply or a packet of the right size, and starts a packet |
| SerialStream.StreamReader.EndPacket | daemon/SerialDaemon.cpp:1608-1637 | a binary phrase of the full size is delivered without waiting, a TabletPC one only as an information reply |
| SerialStream.StreamReader.EndLine | daemon/SerialDaemon.cpp:1638-1666 | a text phrase ends at a carriage return or at the third counted comma, and goes out as what the line is |
| SerialStream.StreamReader.HandOn | daemon/SerialDaemon.cpp:1668-1688 | at most one packet and one reply are handed on, in that order, and then the comma count restarts |
| SerialStream.StreamReader.Consume | daemon/SerialDaemon.cpp:1539-1690 | one turn of the loop, with its lookahead, is one step of the automaton without lookahead |
| SerialStream.NewlineAfterNewline | daemon/SerialDaemon.cpp:1598-1602 | the newline that the lookahead skips would have changed nothing |
| SerialStream.StreamReader.ProcessBuffer | daemon/SerialDaemon.cpp:1527-1690 | one read has the outcome of the automaton on its bytes, although the lookahead ends with the read |
| SerialStream.StreamReader.ProcessSerialStream | daemon/SerialDaemon.cpp:1520-1695 | however the stream is cut into reads, state and outputs are those of the automaton on the whole stream |
| SerialStream.PhraseIsTail | daemon/SerialDaemon.cpp:1604-1606 | the pending phrase is always the end of the stream read so far |
| SerialStream.ShortLinesFit | daemon/SerialDaemon.cpp:1521-1687 | no buffer overflows when every stretch of text without newline has at most 99 bytes, or 63 from an ASCII tablet |
| ReadLine.Store | daemon/TMSerialPort.cpp:436-458 | one byte is written, skipped or ends the line as the specification says |
| ReadLine.ReadLine | daemon/TMSerialPort.cpp:408-471 | the buffer holds the text of the first line after any bursts and timeouts, closed with a zero, and the returned length is that of the string |
| ReadLine.TextIsALine | daemon/TMSerialPort.cpp:408-471 | on any input the text has no newline and no high byte, and a tilde only in front |
| FramersAgree.FramerReadsLine | daemon/SerialDaemon.cpp:1638-1664 | the stream framer delivers a whole reply line exactly when no third comma cuts it |
| FramersAgree.ReaderReadsLine | daemon/TMSerialPort.cpp:408-471 | after complete packets without a tilde ReadLine returns the reply line |
| FramersAgree.FramersAgreeUnlessCut | daemon/TMSerialPort.cpp:408-471 | the stream framer's only reply is ReadLine's text with its terminator, if and only if the tablet parses setup strings or the line has fewer than three counted commas |
| Failures.ModelReplyIsCut | daemon/SerialDaemon.cpp:1639-1641 | a model reply with three values that ReadLine reads whole and the stream framer does not deliver |
| Stylus.Tablet.ProcessWacomIVBase | daemon/SerialDaemon.cpp:3005-3083 | position, motion, pressure, tilt, proximity and eraser flag after a Wacom IV packet, buttons untouched |
| Stylus.Tablet.ProcessWacomIV13 | daemon/SerialDaemon.cpp:3111-3142 | the same with the buttons, second switch or eraser by the pen's history |
| Stylus.Tablet.ProcessWacomIV14 | daemon/SerialDaemon.cpp:3090-3105 | seven bytes without tilt, nine with scaled tilt, other sizes ignored |
| Stylus.Tablet.ProcessTabletPC | daemon/SerialDaemon.cpp:3522-3596 | the whole pen after a TabletPC packet |
| Stylus.Tablet.ProcessPacket | daemon/SerialDaemon.cpp:1928-1995 | dispatch by command set and ROM version, then no pressure without tip or eraser |
| StylusRuns.TrailSettled | daemon/SerialDaemon.cpp:3023-3142 | in every run off the tablet nothing is pressed, the pen is near exactly when it is on the tablet, and eraser never goes with tip or second switch |
| StylusRuns.OffMeansNoEraser | daemon/SerialDaemon.cpp:3023-3030 | in suppressed mode without mouse mode, off the tablet the eraser flag is clear |
| StylusRuns.SessionKeepsEraser | daemon/SerialDaemon.cpp:3117-3141 | from arrival to departure the eraser flag is what the first packet decided |
| StylusRuns.EraserFlagSurvives | daemon/SerialDaemon.cpp:3065-3082 | a packet leaves the pen off the tablet with its eraser flag set exactly when mouse mode finds the eraser outside the mapped area and the packet is no suppressed disengagement |
| StylusRuns.MouseModeKeepsEraserFlag | daemon/SerialDaemon.cpp:3065-3082 | a packet for which that happens |
| StylusRuns.IVDeparts | daemon/SerialDaemon.cpp:3020-3036 | a disengaging Wacom IV packet leaves the place, takes the pressure and tells the menu button, and in suppressed mode leaves nothing else of the pen |
| StylusRuns.TPCDeparts | daemon/SerialDaemon.cpp:3551-3559 | a TabletPC packet off the tablet leaves nothing of the pen but a place |
| StylusRuns.MotionAddsUp | daemon/SerialDaemon.cpp:3015-3081 | while the pen stays down, in both protocols, the motions reported add up to the way travelled |
| StylusRuns.IVMotionIsStroke | daemon/SerialDaemon.cpp:3073-3079 | the motion after a Wacom IV packet is the way travelled on the tablet, so none on coming and going; it fails exactly for a packet that is not taken after one that moved |
| StylusRuns.TPCMotionIsStroke | daemon/SerialDaemon.cpp:3586-3593 | likewise for a TabletPC, exactly unless the pen moved off the tablet |
| EndToEnd.MotionIsTravelled | daemon/SerialDaemon.cpp:1561-1637 | when framer and decoder fit, for every byte stream the motion after each packet is the way travelled since the one before |
| StylusRuns.TiltArrives | daemon/SerialDaemon.cpp:3097-3104 | nine bytes carry each tilt to its own axis, scaled, and change nothing else |
| StylusRuns.PressureScales | daemon/SerialDaemon.cpp:3071 | scaled pressure keeps the order of pressures, is full at the full pressure and less than one below the proportion |
| StylusRuns.TiltScales | daemon/SerialDaemon.cpp:3098-3102 | scaled tilt keeps order and sign and fits sixteen bits for every tilt but -64 |
| StylusRuns.TabletPCNeverReportsSecondSwitch | daemon/SerialDaemon.cpp:3554-3596 | in no run of packets does a TabletPC report the second switch or the eraser button, against the source's comment that the eraser can be mapped through that switch |
| StylusRuns.UnmaskedIsMasked | daemon/SerialDaemon.cpp:3543-3549 | the decode without masks is right exactly when the coordinate bytes have the high bit clear |
| EndToEnd.DeliveredIsMasked | daemon/SerialDaemon.cpp:3543-3549 | so it is right on every nine-byte packet with a header in front that the framer delivers from any byte stream |
| Framer.DeliversWellFormed | daemon/SerialDaemon.cpp:1561-1637 | whatever the stream, a delivered packet that starts with a header byte holds no other one |
| StylusRuns.IVBytesCarrySample | daemon/SerialDaemon.cpp:3040-3050 | position, button flag and button bits of a sample survive the Wacom IV encoding |
| StylusRuns.IVPressureCarriesSample | daemon/SerialDaemon.cpp:3052-3058 | so does its pressure, less one, and from the oldest ROMs without its lowest bit |
| StylusRuns.TPCBytesCarrySample | daemon/SerialDaemon.cpp:3543-3575 | a TabletPC packet is one frame and carries position, pressure and buttons of a sample |
| EndToEnd.IVShows | daemon/SerialDaemon.cpp:3005-3142 | whatever the pen was before, a sample's Wacom IV packet makes it show the sample |
| EndToEnd.TPCShows | daemon/SerialDaemon.cpp:3522-3596 | so does its TabletPC packet |
| EndToEnd.WrongSizeNeverMoves | daemon/SerialDaemon.cpp:3090-3113 | when packets have nine bytes and the ROM reports no tilt, no byte stream at all moves the pen or puts it on the tablet |
| EndToEnd.SamplesNeedTheirSize | daemon/SerialDaemon.cpp:3090-3113 | samples of a Wacom IV tablet get through if and only if packets have seven bytes or the ROM reports tilt |
| EndToEnd.SessionDecidesButtons | daemon/SerialDaemon.cpp:3111-3142 | with the second switch down in the first sample of a session the pen is the eraser to the end of it, else that switch is the second side switch: the exact buttons of every sample |
| EndToEnd.SamplesDriveThePen | daemon/SerialDaemon.cpp:1561-1637 | whatever garbage came first, framing and decoding drive the pen through exactly the samples sent, in order, and through nothing after them |
| EventRuns.BurstsBalance | daemon/SerialDaemon.cpp:2168-2199 | double- and single-click bursts net to zero and never go below it |
| EventRuns.PostBalances | daemon/SerialDaemon.cpp:2168-2232 | one call keeps left downs minus ups equal to button 1 plus eraser |
| EventRuns.LeftButtonBalances | daemon/SerialDaemon.cpp:2138-2255 | over every run without grab/drop, even with a changing mapping, left downs minus ups are button 1 plus eraser and are never negative at any event |
| Clicks.EventsTellButtons | daemon/SerialDaemon.cpp:2138-2246 | over every run the buttons that are down by the events posted are those that some pressed stylus button of the last pen is mapped to: right and others always, the left one without grab/drop |
| Clicks.ClicksArePosted | daemon/SerialDaemon.cpp:2166-2232 | over every run without grab/drop no click is lost or made up: one left down for each time that button 1, the eraser or a single click comes to be pressed, one more for a single click on a held button, two for a double click, the second with click count two |
| Clicks.ClicksAlternate | daemon/SerialDaemon.cpp:2166-2222 | over every run with only button 1 and clicks on the left button its events strictly alternate, and it is down exactly when a pressed button is mapped to button 1 |
| Alternation.ChannelsAlternate | daemon/SerialDaemon.cpp:2158-2246 | over every run right and other buttons strictly alternate down and up, proximity reports alternate starting with an enter, and each ends where the state says |
| Alternation.ReleaseEndsAll | daemon/SerialDaemon.cpp:2207-2246 | after a call with nothing pressed every button has been released |
| Alternation.MovesTellButtons | daemon/SerialDaemon.cpp:2143-2253 | every plain move of a run is a left drag exactly when the left button is down by the events posted so far, and a right drag exactly when only the right one is |
| Moves.MovesArePosted | daemon/SerialDaemon.cpp:2248-2250 | over every run a call posts a plain move exactly when the pen is elsewhere than at the call before, across or down, and the call posts no click |
| Moves.ReportsTell | daemon/SerialDaemon.cpp:2143-2163 | every report of a call is about the place aimed at and tells the drag by the last pen; an enter tells an eraser exactly when the pen is one and it is mapped to the eraser |
| Moves.PointersMatch | daemon/SerialDaemon.cpp:2157-2163 | over every run each leave tells the same pointer, pen or eraser, as the enter before it |
| Alternation.FaithfulStep | daemon/SerialDaemon.cpp:2201-2222 | a call keeps the left events faithful to button 1 and drag exactly when its grab release is clean |
| Alternation.GrabMachine | daemon/SerialDaemon.cpp:2057-2222 | over a run with only button 1 and grab/drop on the left button, left events alternate and the button is down exactly when button 1 or a drag holds it, if and only if every grab release is clean |
| Clicks.DragIsOdd | daemon/SerialDaemon.cpp:2201-2216 | a drag is on exactly when grab/drop has been let go an odd number of times since button 1 last was |
| Clicks.GrabsTellButtons | daemon/SerialDaemon.cpp:2201-2222 | over runs with clean releases the left button is down exactly when the last pen presses button 1 or a drag is on in that sense |
| Moves.MovesTellDrags | daemon/SerialDaemon.cpp:2143-2253 | in such runs a plain move is a left drag exactly when the left button is down by the events posted or grab/drop is held |
| Failures.LiftPressesTwice | daemon/SerialDaemon.cpp:2201-2222 | two packets after which the left button has been pressed twice in a row |
| Proximity.PressesAreBracketed | daemon/SerialDaemon.cpp:2158-2246 | every press lies between an enter and the matching leave, if and only if grab is never let go by lifting the pen while no drag is on |
| Proximity.BracketedWithoutGrab | daemon/SerialDaemon.cpp:2158-2246 | in particular always when grab/drop is not mapped |
| Failures.LiftPressesOutside | daemon/SerialDaemon.cpp:2157-2209 | the same two packets press a button after the proximity leave |
| Proximity.MotionTelescopes | daemon/SerialDaemon.cpp:2469-2484 | over every run the posted deltas, and what is lost after positions that look like none, add up to the last reported position minus the first, also when one call reports twice; the deltas alone do when no such position was reported |
| Proximity.SentinelLosesMotion | daemon/SerialDaemon.cpp:2469-2484 | the deltas of a run add up at every report if and only if no call after the first report reports another position than a remembered one with the value that stands for none |
| Proximity.MotionIsLost | daemon/SerialDaemon.cpp:2469-2484 | a run of two calls in which motion is lost: the pen arrives where the pointer gets that value, and moves on |
| Pipeline.LiftReleases | daemon/SerialDaemon.cpp:1278-1291 | a disengaging packet of either protocol, or a panic reset, leaves the pen off the tablet with nothing pressed, no eraser and no pressure |
| Pipeline.MotionAfterInput | daemon/SerialDaemon.cpp:1278-1291 | a panic repeats the motion before it, which is exactly when the motion is not the way travelled |
| Pipeline.NoStuckButtons | daemon/SerialDaemon.cpp:2056-2255 | for every run of packets, however malformed, and panics: presses are bracketed, the left button is balanced, and after a lift or a panic no button is down |
| Pipeline.AnyStreamIsSafe | daemon/SerialDaemon.cpp:1520-2255 | the same brackets and balance for every byte stream whatsoever |
| EventPoster.Poster.ReportMotion | daemon/SerialDaemon.cpp:2469-2484 | a move event carries the motion since the last one and remembers its position |
| EventPoster.Poster.MapButtons | daemon/SerialDaemon.cpp:2138-2142 | each system button is pressed exactly when a pressed stylus button is mapped to it |
| EventPoster.Poster.PostClicks | daemon/SerialDaemon.cpp:2166-2199 | the bursts for double and single clicks, and whether there were any |
| EventPoster.Poster.PostGrabAndButton1 | daemon/SerialDaemon.cpp:2201-2222 | grab, drop and button 1 with the drag flag that survives calls |
| EventPoster.Poster.PostCrossing | daemon/SerialDaemon.cpp:2157-2163 | a proximity report exactly when the pen came or left, with the pointer type decided on arrival |
| EventPoster.Poster.PostChanges | daemon/SerialDaemon.cpp:2138-2255 | the events of a call in their order, and what is remembered for the next |
| EventPoster.Poster.Aim | daemon/SerialDaemon.cpp:2059-2133 | the screen position asked for, in absolute and in mouse mode |
| EventPoster.Poster.PostChangeEvents | daemon/SerialDaemon.cpp:2056-2255 | a whole call: position, events and memory |
| Service.ServeOne | daemon/SerialDaemon.cpp:1928-2255 | a packet moves the pen, aims, and posts events at the position aimed at; any other output does nothing |
| Service.Serve | daemon/SerialDaemon.cpp:1520-2255 | for all reads of a session events, memory and position are those of the run that byte stream, mapping and areas determine, with everything that Service.SessionIsSafe states of it |
| Service.SessionIsSafe | daemon/SerialDaemon.cpp:1520-2255 | in every such run: the buttons down by the events are those the last pen presses; right, other buttons and proximity alternate; without grab/drop presses are bracketed and the left button balanced; in absolute mode every position reported lies in the mapped screen area; and the deltas add up, in absolute mode without any loss when that area lies right of the position that stands for none |
| Service.SamplesAimThePointer | daemon/SerialDaemon.cpp:2116-2133 | in absolute mode, whatever garbage came first, each sample sent aims the pointer, in order and last, at its own point of the screen |
| Service.SamplesPressButtons | daemon/SerialDaemon.cpp:1928-2255 | after each sample of a session the left and the right button are down by the events posted as that sample says, with the eraser told by the first sample |
| Service.PenCarriesThePointer | daemon/SerialDaemon.cpp:2082-2114 | in mouse mode, for every byte stream, each call carries the pointer on from the last report by the way the pen has travelled, and by nothing when the pen comes, goes or is away |
| Pointer.AxisValue | daemon/SerialDaemon.cpp:2116-2133 | the exact screen coordinate for integral areas, with the truncation toward zero that moves negative fractions |
| Pointer.AxisStaysInside | daemon/SerialDaemon.cpp:2116-2133 | every pen position lands inside the mapped side, except when the side lies left of the origin and is shorter than the tablet side |
| Pointer.AxisMonotone | daemon/SerialDaemon.cpp:2116-2133 | each axis is monotone, for all real areas |
| Pointer.AxisReachesAll | daemon/SerialDaemon.cpp:2116-2133 | every column can be reached if and only if the mapped side is no longer than the tablet side, wherever it lies |
| Pointer.AbsoluteStaysInside | daemon/SerialDaemon.cpp:2116-2130 | for all real areas, before truncation every pen position is mapped into the screen side if and only if the tablet side has at least one unit |
| Pointer.TargetInside | daemon/SerialDaemon.cpp:2062-2133 | in absolute mode the pointer always shows a point of the mapped screen area, fractional areas included |
| Pointer.PixelsStayInside | daemon/SerialDaemon.cpp:2062-2133 | on integral areas every pen gives a pixel of the mapped rectangle, except when a side lies left of or above the origin and is shorter than its tablet side |
| Pointer.MouseModeIgnoresOrigin | daemon/SerialDaemon.cpp:2107-2114 | in mouse mode the pointer stays within the size of the mapped side counted from the screen edge, so inside the mapped side for every motion exactly when that starts at the edge |
| Pointer.MouseCarries | daemon/SerialDaemon.cpp:2107-2114 | in mouse mode the pointer goes on from the last position by motion times rate, held at the ends of the side |
| Pointer.MouseRate | daemon/SerialDaemon.cpp:2082-2089 | the rate: at scaling one, crossing the tablet area crosses all screens twice, along the side of the smaller ratio |
| Pointer.MouseMonotone | daemon/SerialDaemon.cpp:2107-2114 | more motion never takes the pointer less far, if and only if the mapped side is a whole number of points |
| Rescale.Mapper.UpdateTabletScale | daemon/SerialDaemon.cpp:3718-3737 | the mapped tablet area is scaled with the tablet, axis by axis |
| Rescale.Mapper.ScreenChanged | daemon/SerialDaemon.cpp:3746-3765 | the mapped screen area is scaled with the screen |
| Rescale.Mapper.FollowScales | daemon/SerialDaemon.cpp:3718-3737 | after any history of positive scales the area is the original times last over first |
| Rescale.FollowIsDirect | daemon/SerialDaemon.cpp:3746-3765 | the same for screen sizes, so coming back to the first size restores the area |
| Rescale.ScreenPointIsStable | daemon/SerialDaemon.cpp:2116-2130 | a pen position that scales with the tablet keeps its screen point while it is not held at the edge |
| Rescale.RescaledTabletKeepsPoint | daemon/SerialDaemon.cpp:3718-3737 | so a pen keeps its screen point on both axes when the mapped tablet area follows its tablet |
| Rescale.RescaledScreenScalesPoint | daemon/SerialDaemon.cpp:3746-3765 | and its place in proportion when the mapped screen area follows its screen |
| Settings.UnpackPack | daemon/TabletSettings.cpp:309-341 | packing and unpacking settings restores every field up to its width |
| Settings.PackUnpack | daemon/TabletSettings.cpp:112-143 | unpacking and packing any word gives it back with bit 9 cleared |
| Settings.TabletSettings.Import | daemon/TabletSettings.cpp:107-149 | all fields, the four numbers and the packet size after importing a text, whatever the object held before |
| Settings.PrintThenImport | daemon/TabletSettings.cpp:305-349 | importing a printed setup restores every masked field and all four numbers |
| Settings.ImportThenPrint | daemon/TabletSettings.cpp:107-149 | importing a word and printing gives the same text without bit 9 |
| Settings.PrefixIsSkipped | daemon/TabletSettings.cpp:110 | the prefix of a setup command is skipped exactly for banks of one digit |
| Settings.SentSetupIsImported | daemon/SerialDaemon.cpp:1305-1314 | for banks 0 to 2 the command sent to the tablet imports as the setup string itself |
| Settings.SetupTextFits | daemon/TabletSettings.cpp:305-349 | a printed setup fits its buffer exactly when its numbers have at most nineteen characters together |
| Setups.SetupLetsSamplesThrough | daemon/TabletSettings.cpp:107-149 | after importing a Wacom IV setup the samples get through if and only if it has tilt off or the ROM reports tilt |
| Setups.NoSetupIsForTabletPC | daemon/SerialDaemon.cpp:1305-1314 | no text, imported, leaves the TabletPC decoder chosen |
| Setups.OwnSetupSilencesTabletPC | daemon/SerialDaemon.cpp:1305-1314 | a TabletPC sent its own settings back has no decoder, and its pen rests whatever arrives |
| Text.PrintedScans | daemon/TabletSettings.cpp:346 | a padded decimal followed by anything but a digit scans back within its limit, negative numbers included |
| Text.PrintedAllScans | prefpane/TMPreset.m:147-157 | so does a whole message of numbers between fixed texts |
| Text.HexScans | daemon/TabletSettings.cpp:344 | eight hexadecimal digits scan back to the word |
| Pane.SettingsStringFromControls | prefpane/TMController.m:1257-1329 | the pane's encoder, bit by bit, writes the word of the fields its controls show |
| Pane.SetControlsForSettings | prefpane/TMController.m:1072-1118 | the pane's decoder sets every control from the word, and leaves a menu alone that does not offer the value |
| Pane.DaemonReadsPane | prefpane/TMController.m:1257-1329 | the daemon imports every shared field and all numbers as the controls have them |
| Pane.PaneReadsDaemon | prefpane/TMController.m:1072-1080 | the pane scans exactly what the daemon printed, if and only if no number is longer than its field |
| Pane.PaneShowsDaemon | prefpane/TMController.m:1072-1118 | the controls then show the daemon's settings field by field |
| Pane.PaneRoundTrip | prefpane/TMController.m:1072-1329 | reading back what the pane wrote restores the controls, if and only if the baud rate is one of the first four |
| Pane.DaemonPaneDaemon | prefpane/TMController.m:1072-1329 | settings shown, written and imported again are the same without the four bits the pane does not know, if and only if its menus offer them |
| Geometry.MessageScans | prefpane/TMPreset.m:147-157 | a geometry message scans back to the layout it was printed from |
| Geometry.Daemon.InitTabletBounds | daemon/SerialDaemon.cpp:3703-3711 | the mapped tablet area from first and last positions, -1 standing for a bound not given |
| Geometry.Daemon.SetScreenMapping | daemon/SerialDaemon.cpp:3680-3693 | the mapped screen area, after both bounds have been cut to sixteen bits |
| Geometry.Daemon.HandleGeometry | daemon/SerialDaemon.cpp:4004-4019 | what the daemon reports after a geometry message, complete or not |
| Geometry.ReportedIsGiven | daemon/SerialDaemon.cpp:3680-3711 | the daemon reports the layout it was given, if and only if no rectangle is inside out and the screen values fit sixteen bits |
| Geometry.NotGiven | daemon/SerialDaemon.cpp:3680-3711 | bounds not given take the whole side; with only the last one missing a screen area reaches the end of the screen, but a tablet area that of the tablet if and only if it starts at the edge |
| Geometry.SendAndAsk | daemon/SerialDaemon.cpp:4219-4230 | the whole way from pane to daemon and back keeps eight bounds, four buttons and the mouse flag, under exactly that condition |
| AreaChooser.SanityCheckArea | prefpane/TMAreaChooser.m:437-473 | the sequence of clamps puts each side where the projection says |
| AreaChooser.ProjectIsSound | prefpane/TMAreaChooser.m:437-473 | a projected side is ordered and inside the bounds, a valid side stays, projecting twice changes nothing more, and sizes up to one less than the bound are kept |
| AreaChooser.ProjectMovesBack | prefpane/TMAreaChooser.m:437-473 | a side that reaches out goes back just as far as the end it reached over, and one larger than the bounds takes all of them |
| AreaChooser.SizeKept | prefpane/TMAreaChooser.m:437-473 | exactly which sizes survive |
| AreaChooser.StoredInside | prefpane/TMAreaChooser.m:66-119 | the stored area is inside the bounds, constrained or not |
| AreaChooser.StoredRatio | prefpane/TMAreaChooser.m:78-113 | the stored area has the requested ratio if and only if the resized side keeps its size inside the bounds |
| AreaChooser.ConstrainedKeepsCorner | prefpane/TMAreaChooser.m:78-113 | the constraint keeps the corner opposite to the dragged one, or the centre, whenever the resized side fits beside it |
| AreaChooser.RatioIsRequested | prefpane/TMAreaChooser.m:39-48 | the two factors express exactly the proportion asked for |
| AreaChooser.WholeDragKeepsSize | prefpane/TMAreaChooser.m:351-375 | dragging the whole box keeps its size and its ratio |
| AreaChooser.DragRunKeepsSize | prefpane/TMAreaChooser.m:351-375 | so does any run of such moves, and the box never leaves the bounds |
| AreaChooser.WholeDragGoes | prefpane/TMAreaChooser.m:351-375 | each side of the dragged box goes by the distance, or to the end it is pushed against |
| AreaChooser.DragRunGoes | prefpane/TMAreaChooser.m:351-375 | over any run of moves that never reaches an end, the box is displaced by their sum |
| AreaChooser.EdgeFollows | prefpane/TMAreaChooser.m:380-402 | a dragged edge follows the mouse between the end of the bounds and the smallest size |
| AreaChooser.CornerDragGoes | prefpane/TMAreaChooser.m:376-413 | so does the stored box without a constraint, corner by corner |
| AreaChooser.CornerKeepsOpposite | prefpane/TMAreaChooser.m:380-402 | a dragged edge leaves the opposite one in place, except when the minimal size does not fit |
| AreaChooser.SquareReset | prefpane/TMAreaChooser.m:222-241 | taking everything under a square constraint gives a square exactly when the bounds are at least as wide as high |
| AreaChooser.Chooser.ResetToAll | prefpane/TMAreaChooser.m:222-241 | the stored box after taking everything |
| AreaChooser.ResetTakesAll | prefpane/TMAreaChooser.m:222-241 | without a constraint that is the whole of the bounds |
| AreaChooser.WideResetFits | prefpane/TMAreaChooser.m:222-241 | a wide box takes the whole width and has the ratio whenever such a box fits |
| AreaChooser.HighResetFits | prefpane/TMAreaChooser.m:222-241 | a high box takes the whole height likewise |
| AreaChooser.ResetKeepsCentre | prefpane/TMAreaChooser.m:222-241 | either keeps its centre, if it has room around it |
| AreaChooser.Chooser.SetArea | prefpane/TMAreaChooser.m:66-119 | the stored box after check, constraint and second check |
| AreaChooser.Chooser.Constrain | prefpane/TMAreaChooser.m:39-52 | afterwards the box has the proportion of the given size, under the exact condition |
| AreaChooser.Chooser.MouseDragged | prefpane/TMAreaChooser.m:332-413 | the stored box for each drag type; whole-box drags keep the size and go by the distance, and an unconstrained corner follows the mouse |
| Presets.NoMoreThanUsed | prefpane/TMPresetsController.m:147-154 | a menu holds no more rejected titles than entries, so the naming loop ends |
| Presets.TitlesDiffer | prefpane/TMPresetsController.m:137-164 | no two entries of the menu have the same title |
| Presets.EntryIsPreset | prefpane/TMPresetsController.m:137-164 | entry i is preset i's name with the least number that is still free |
| Presets.TitlesAreNames | prefpane/TMPresetsController.m:137-164 | the menu shows the names themselves exactly when no name occurs twice |
| Presets.PresetsController.AddTitle | prefpane/TMPresetsController.m:147-154 | the naming loop, with its termination |
| Presets.PresetsController.UpdatePresetsMenu | prefpane/TMPresetsController.m:137-164 | the whole menu and its selected entry |
| Presets.TipIsIgnored | prefpane/TMPreset.m:105-110 | when the comparison, which assigns the tip, agrees with the one its name promises |
| Presets.CaseIsIgnored | prefpane/TMPresetsController.m:190-197 | names are compared up to the case of ASCII letters |
| Presets.AnswerMatchesItself | prefpane/TMPreset.m:91-115 | the daemon's answer to a preset's message matches that preset exactly when no rectangle is inside out, the screen fits sixteen bits, the tip is mapped and the daemon already had the preset's mouse scaling |
| Presets.DeleteKeepsConsistent | prefpane/TMPresetsController.m:443-454 | deleting keeps the active index in range exactly when another preset is left |
| Presets.DeleteKeepsOthers | prefpane/TMPresetsController.m:443-454 | deleting takes out the selected preset and leaves the others in their order; selected is then the next one, or the last |
| Presets.ActionsKeepOthers | prefpane/TMPresetsController.m:367-463 | adding, selecting, renaming and editing keep every preset but the active one; adding appends a copy of it, selecting makes the chosen one active |
| Presets.ActionsShowActive | prefpane/TMPresetsController.m:137-256 | the entry shown stays the active one exactly unless a report is about another preset |
| Presets.AddThenDelete | prefpane/TMPresetsController.m:430-454 | deleting what was just added restores the list, and the selection exactly when the last preset was selected |
| Presets.ReportChangesActive | prefpane/TMPresetsController.m:166-256 | a report lands in the slot of the active preset, which is right if and only if it is about that one or nothing would have changed; and only then does the menu show the active preset |
| Presets.ActiveIsLost | prefpane/TMPresetsController.m:166-256 | otherwise the active preset is replaced by a copy with the other one's name |
| Presets.ReportIsTaken | prefpane/TMPresetsController.m:233-256 | after a report the active preset says what was reported, exactly when the reported tablet area has an extent or is unchanged |
| Presets.UnknownReportAdds | prefpane/TMPresetsController.m:199-202 | a report about an unknown layout adds a preset and leaves the others alone |
| Presets.ReportKeepsMenu | prefpane/TMPresetsController.m:166-256 | after a report the menu fits the stored names exactly when the name put in place gets the title shown there already |
| Presets.MenuOverRuns | prefpane/TMPresetsController.m:137-463 | over any run entry i of the menu is preset i at all times, if and only if every report keeps its title |
| Failures.ReportLosesName | prefpane/TMPresetsController.m:166-256 | presets A and B, and a report of B's layout while A is active: both are B afterwards, and the menu still shows A |
| Presets.RunsKeepConsistent | prefpane/TMPresetsController.m:367-463 | over any run of actions the active index stays in range and the active preset is the stored one |
| Presets.PresetsController.DoDeletePreset | prefpane/TMPresetsController.m:443-454 | list, index, active preset and menu after deleting |
| Presets.PresetsController.AddPresetNamed | prefpane/TMPresetsController.m:430-441 | list, index, active preset and menu after adding |
| Presets.PresetsController.FindMatching | prefpane/TMPresetsController.m:176-188 | the first preset that matches a report |
| Presets.PresetsController.ActivatePresetMatching | prefpane/TMPresetsController.m:166-213 | which preset a report activates, the index being left alone, and the menu, rebuilt only for an added preset |
| Presets.PresetsController.GeometryReceived | prefpane/TMPresetsController.m:233-256 | the whole state after a geometry report, menu titles included |

## Left out

- Serial port set-up, port scanning, sleeps, the run loop, message ports, CoreGraphics and IOKit: the bytes read, the mapped areas, the screen size and the pointer's first position are parameters.
- What a reply or an information reply does to the tablet object: replies are outputs of the framer.
- Settings stay fixed while a stream is framed; a reply that changes the packet size or the command set in mid-stream is not modelled.
- Fujitsu, Graphire, CalComp, Finepoint, Wacom V and II-S decoders; II-S data lines are modelled as far as the framer delivers them.
- SerialStream.StreamReader.ProcessSerialStream: requires that no byte overflows the source's fixed buffers, exactly: a text phrase of at most 100 bytes and an ASCII packet of at most 63, which the source does not check.
- TextLines.LineDelivered: is about lines that no third comma cuts short.
- Service.Serve: has the same requirement on the buffers, and takes the framed outputs after the reads instead of between two bytes, which the fixed settings allow.
- ReadLine.ReadLine: requires that the text fits the caller's buffer, which the source does not check; the waits are bursts and time-outs given in advance.
- FramersAgree.FramersAgreeUnlessCut: is about tablets other than the TabletPC and about packets without the byte of the tilde, on which the two framers differ by design.
- EndToEnd.SamplesDriveThePen: leaves the exact choice between tip, eraser and second switch to EndToEnd.SessionDecidesButtons, which needs suppressed mode without mouse mode.
- StylusRuns.TiltScales: makes no claim for a tilt of -64, whose scaled value leaves sixteen bits.
- Pointer.AxisStaysInside: is about integral areas, and Pointer.AbsoluteStaysInside about all; conversions of values beyond sixteen bits are not modelled.
- Geometry.ReportedIsGiven: requires bounds that are not negative, as the pane makes them, and screens of at most 32768 points, since -1 stands for a bound not given.
- Stylus.Tablet.ProcessPacket: the packet counters and the stream shown in the pane are not modelled; events are posted after every packet, not from a separate timer.
- Events while the tablet is switched off in the pane, and a new initialisation in mid-run: every request to post an event counts, from one initialisation on.
- Pressure, tilt and click numbers inside the posted events, apart from the click count of a burst.
- Scanning of blanks in front of numbers, of plus signs, of a hexadecimal prefix and of numbers beyond the machine's width: printed texts contain none of them.
- Settings.TabletSettings.Import: an unreadable text leaves an arbitrary word, as the source reads an uninitialised variable.
- Settings.PrintThenImport: a text that does not fit the buffer it is printed to is treated as printed in full; Settings.SetupTextFits says which fit.
- Geometry.SendAndAsk: the mouse scaling travels as uninterpreted text; the daemon parses it but never applies it, so the answer's scaling is a parameter.
- Setups.SetupLetsSamplesThrough: is about absolute positions without mouse mode, in which the pen at rest cannot pass for a sample.
- Pane.SetControlsForSettings: selecting a menu item that does not exist is taken to leave the menu as it is; the menus' contents are those of prefpane/English.lproj/TabletMagicPref.xib.
- Presets.PresetsController.GeometryReceived: starts from the numbers of the report, whose scanning Geometry has; sending the preset back for an empty tablet area is not modelled.
- Presets.MenuOverRuns: starts from a filled menu; a menu that a report has spoilt is filled again by adding, deleting or renaming.
- Presets.UnknownReportAdds: the search for a preset called Custom disregards the case of ASCII letters only.
- Drawing, text fields, sheets, localisation, stored preferences, and the conversions between view and tablet points of the area chooser.
- Rounding of floating point: reals are exact.
- The factory settings of each tablet model.
