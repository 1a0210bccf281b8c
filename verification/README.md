# HyRemote verification model

A Dafny model of the parts of HyRemote whose correctness depends on interleavings, long
histories or byte-level agreement, with proofs of what those parts promise.

| files | what they model |
|---|---|
| `RfbRegion`, `RfbUpdate`, `DamagePrecision` | damage regions of at most 64 rectangles and what one viewer is owed, no less and no more |
| `Frames`, `FrameDamage` | frames, the presented pixel, and the comparison of two frames |
| `ViewerCoherence`, `ViewerService`, `ViewerLifecycle`, `ViewerObject` | the delivery protocol of the RFB worker over all viewers |
| `Trle`, `TrleEncoder`, `TrleUpdate` | the TRLE encoder, and a reader for it and for whole updates from RFC 6143 |
| `Wire`, `PixelChannels`, `RawEncoder`, `RawReader` | numbers, pixel formats, Raw rectangles and ServerInit on the wire |
| `Chunking`, `ServerMessages`, `ClientMessages` | incremental parsing; the messages a Normal viewer may send |
| `ToolClient`, `ToolRefusals`, `ToolObject` | the decoder in the command-line tool |
| `HandshakeAgreement`, `ToolMessages`, `WireAgreement`, `CursorAgreement`, `ToolMirror`, `ToolSession`, `ToolProgress` | server and tool together, message by message and over whole runs |
| `SessionLifecycle`, `SessionSafety`, `SessionProgress`, `TeardownProgress`, `SessionObject` | concurrent start, stop and teardown |
| `CallbackGate`, `GateProgress`, `Mailbox`, `RunPipeline`, `PipelineProgress`, `PipelineObject` | callbacks, the frame queue, admission and dispatch |
| `HeldInput`, `HeldPublishing`, `HeldInputObject` | keys and buttons held by several viewers |
| `InputAdmission`, `InputProgress`, `InputSinks` | bounded admission of input and the sinks built on it |
| `SurfaceStack`, `SurfaceRecords`, `SurfaceRouting`, `SurfaceObject` | stacking and hit testing of application surfaces |
| `WorkOrderLedger` | the crash-safe ledger of work orders |

`dafny verify dfyconfig.toml` checks everything.

How the model is built:

- Pure decisions are functions.  What the program updates in place is a class whose methods
  are proved to follow those functions; what is promised is proved about the functions, and
  about whole runs of steps.
- A concurrent protocol is a state machine.  Each critical section is one step, and each call
  made without the lock has a begin and an end step.  Component starts and stops are counted
  per `start()` call, because two overlapping calls can share one component object.
- Sockets, timers and event loops are nondeterministic steps.  A socket write appends bytes.
- A viewer carries the RGB it was last sent for every pixel; coherence is a statement about
  that map and the frame being served.  A viewer with a protocol failure is `Failed` until
  its queued abort arrives.
- Frame storage is immutable while shared: an anchor stands for the storage object, and equal
  anchors have equal bytes.  A producer's `Regions` hint is assumed to be honest about the
  step from the frame before it; nothing else is assumed about hints.
- The backend of a capture source completes an accepted request at most once and a refused
  one never.
- Every lemma is proved by its own steps: automatic induction is switched off.

Four things hold only under a condition, which is stated exactly.  The release of a held button
is lost when the composite sink reports a deferred error in its place or cannot schedule its
turn, when there is no application object, or when a failed scheduling has discarded the hold
before (`InputAdmission.ReleasePostedIff`, `InputAdmission.FailedSchedulingLosesRelease`).  The
server ends a tool that presses a 65th key (`ToolSession.RequestsDecode`), and the tool fails on
a read over its receive budget (`ToolSession.ReadFailsIff`).  The renumbering of stack serials
skips visible surfaces without an area, which the access controller never produces
(`SurfaceStack.RenumberingFollowsIff`).  Accepted frames are neither dispatched nor dropped when
the dispatch worker dies with a frame in hand or waiting
(`RunPipeline.DeathBreaksBalanceIff`).

## Model

| member | source | states |
|---|---|---|
| `RfbRegion.AbsorbIsUnion` | src/runtime/src/transport/rfb_delivery_state.hpp:112-141 | The restart loop of `add` covers exactly the pixels of the region and the new rectangle: merging only contained and exactly adjacent rectangles loses and invents nothing. |
| `RfbRegion.AddRectCovers` | src/runtime/src/transport/rfb_delivery_state.hpp:112-141 | `add` covers the union, and equals it unless the bound collapses the region to its bounding box. |
| `RfbRegion.AddRectBounded` | src/runtime/src/transport/rfb_delivery_state.hpp:177-187 | After every `add` a region has at most 64 rectangles, all non-empty. |
| `RfbRegion.EnforceBoundCovers` | src/runtime/src/transport/rfb_delivery_state.hpp:177-187 | Collapsing to a bounding box keeps every pixel and restores the bound. |
| `RfbRegion.SubtractRectIsExact` | src/runtime/src/transport/rfb_delivery_state.hpp:84-101 | The pieces of a rectangle minus another cover exactly the difference. |
| `RfbRegion.SubtractRectPiecesDisjoint` | src/runtime/src/transport/rfb_delivery_state.hpp:84-101 | Those pieces are pairwise disjoint. |
| `RfbRegion.IntersectedIsExact` | src/runtime/src/transport/rfb_delivery_state.hpp:149-155 | Intersecting a region with a rectangle is exact, and keeps the bound. |
| `RfbRegion.SubtractAllCovers` | src/runtime/src/transport/rfb_delivery_state.hpp:157-175 | Subtracting a delivered region leaves at least the difference (the bound may add pixels, it never loses one). |
| `RfbRegion.SubtractWholeLeavesNothing` | src/runtime/src/transport/rfb_delivery_state.hpp:157-175 | Subtracting a rectangle that contains the region leaves the empty region. |
| `RfbRegion.DamageRegion.Add` | src/runtime/src/transport/rfb_delivery_state.hpp:112-141 | The loop that restarts after every merge terminates and computes the specified region, in place. |
| `RfbRegion.DamageRegion.Subtract` | src/runtime/src/transport/rfb_delivery_state.hpp:157-175 | In-place subtraction computes the specified region. |
| `RfbRegion.DamageRegion.IntersectedWith` | src/runtime/src/transport/rfb_delivery_state.hpp:149-155 | The clipping loop computes the specified region in a fresh object. |
| `RfbUpdate.CoalesceCovers` | src/runtime/src/transport/rfb_delivery_state.hpp:290-311 | Coalescing damage over a quarter of the area into one rectangle loses no pixel. |
| `RfbUpdate.CoalesceConfined` | src/runtime/src/transport/rfb_delivery_state.hpp:290-311 | Coalescing stays inside every rectangle that contains the region. |
| `RfbUpdate.SelectConfined` | src/runtime/src/transport/rfb_delivery_state.hpp:214-244 | A selected answer stays inside the request and has at most 64 rectangles, one after a forced refresh. |
| `RfbUpdate.SelectCovers` | src/runtime/src/transport/rfb_delivery_state.hpp:214-244 | Every damaged pixel of the requested area, or the whole area for a full or forced request, is selected. |
| `RfbUpdate.SelectNothing` | src/runtime/src/transport/rfb_delivery_state.hpp:214-244 | Nothing is selected only for an incremental request whose area holds no damage. |
| `RfbUpdate.SelectArea` | src/runtime/src/transport/rfb_delivery_state.hpp:214-244 | An answer of more than one rectangle covers less than a quarter of the requested area, counted with multiplicity. |
| `RfbUpdate.AbsorbArea` | src/runtime/src/transport/rfb_delivery_state.hpp:69-141 | Exact merging never increases the number of pixels that will be sent. |
| `RfbUpdate.CommitCovers` | src/runtime/src/transport/rfb_delivery_state.hpp:246-253 | Committing a delivery leaves every pending pixel that was not delivered. |
| `RfbUpdate.UpdateState.Select` | src/runtime/src/transport/rfb_delivery_state.hpp:214-244 | The object selects what the specification says, without changing its state. |
| `RfbUpdate.UpdateState.CommitDelivered` | src/runtime/src/transport/rfb_delivery_state.hpp:246-253 | The object spends request and forced refresh and subtracts the delivered region. |
| `RfbUpdate.CoalesceForPaint` | src/runtime/src/transport/rfb_delivery_state.hpp:290-311 | The area loop decides by the 25 percent rule and returns the damage itself or its bounding box. |
| `DamagePrecision.SubtractAllIsExact` | src/runtime/src/transport/rfb_delivery_state.hpp:157-175 | Subtraction removes every delivered rectangle exactly as long as no list of pieces exceeds the bound. |
| `DamagePrecision.SubtractAllStaysInside` | src/runtime/src/transport/rfb_delivery_state.hpp:157-187 | Even when the bound collapses the pieces, nothing outside a rectangle around the old region becomes pending. |
| `DamagePrecision.PartsMerge` | src/runtime/src/transport/rfb_delivery_state.hpp:64-141 | Two parts of a rectangle cut along a column or a row become one rectangle again, in either order. |
| `DamagePrecision.CoalesceIsTight` | src/runtime/src/transport/rfb_delivery_state.hpp:290-311 | Damage under a quarter of the area is left as it is; more becomes one rectangle, the smallest around it. |
| `DamagePrecision.SelectIsExact` | src/runtime/src/transport/rfb_delivery_state.hpp:214-244 | A request selects nothing exactly when it is incremental, unforced and without damage; a forced or full one selects exactly its area, and an incremental one exactly its damage while that is less than a quarter. |
| `Frames.OpaqueChannel` | src/runtime/src/transport/rfb_pixel_policy.hpp:13-22 | The presented channel never exceeds the stored one, equals it unless alpha is straight and below 255, and is 0 for transparent pixels. |
| `FrameDamage.ClipIsExact` | src/runtime/src/transport/rfb_delivery_state.hpp:313-331 | Clipping a hint to the frame keeps exactly the pixels inside both. |
| `FrameDamage.DamageIsSound` | src/runtime/src/transport/rfb_delivery_state.hpp:384-482 | Every pixel whose presented RGB changed since the observed frame is in the returned region, on every path, given that a trusted hint is honest about its own step. |
| `FrameDamage.EmptyDamageIffSamePicture` | src/runtime/src/transport/rfb_delivery_state.hpp:384-482 | With readable RGBA pixels and no trusted hint the region is empty exactly when the presented pictures are equal. |
| `FrameDamage.SoundAcrossDrops` | src/runtime/src/transport/rfb_delivery_state.hpp:338-354 | For any accepted frames lost between two observed ones the damage still covers every changed pixel, because hints count only between adjacent ids. |
| `FrameDamage.SkippedHintWouldLosePixels` | src/runtime/src/transport/rfb_delivery_state.hpp:338-354 | Three accepted frames for which trusting the hint of the last without the middle one would lose a pixel. |
| `DamagePrecision.DamageIsChangedTiles` | src/runtime/src/transport/rfb_delivery_state.hpp:384-482 | While at most 64 tiles and less than a quarter of the frame changed, the damage is exactly the 64 by 64 tiles that hold a changed pixel. |
| `DamagePrecision.DamageStaysInside` | src/runtime/src/transport/rfb_delivery_state.hpp:384-482 | However much changed, the damage stays in every rectangle around the changed tiles. |
| `DamagePrecision.HintIsExact` | src/runtime/src/transport/rfb_delivery_state.hpp:338-350 | The damage of a trusted hint of at most 64 rectangles is exactly the hinted part of the frame while that is less than a quarter. |
| `DamagePrecision.HintIsUsedWhenAdjacent` | src/runtime/src/transport/rfb_delivery_state.hpp:352-358 | The hint of an accepted frame is used against the accepted frame right before it, and against no other. |
| `FrameDamage.RowDiffers` | src/runtime/src/transport/rfb_delivery_state.hpp:365-382 | The row loop answers whether some presented pixel differs. |
| `FrameDamage.TileChanged` | src/runtime/src/transport/rfb_delivery_state.hpp:459-472 | The tile test answers whether some presented pixel of the tile differs, with the byte comparison as a shortcut. |
| `FrameDamage.ComputeDamage` | src/runtime/src/transport/rfb_delivery_state.hpp:384-482 | The nested tile loops compute the specified damage. |
| `ViewerCoherence.StepKeepsInv` | src/runtime/src/transport/rfb_transport.cpp:613-665 | Every worker step (frame, request, encodings, continuous mode, resize, drain, failure, disconnect) keeps every Normal viewer coherent with the served frame. |
| `ViewerCoherence.EveryRunIsCoherent` | src/runtime/src/transport/rfb_transport.cpp:613-665 | After any run over any accepted stream, every in-frame pixel whose last sent RGB differs from the served frame is pending damage of that viewer. |
| `ViewerCoherence.ServedRunIsHonest` | src/runtime/src/transport/rfb_transport.cpp:569-611 | Serving accepted frames in order, any of them missing and the latest possibly observed twice, or decorated frames marked as full damage, is enough for the honesty assumption. |
| `ViewerCoherence.UpdateIsConfined` | src/runtime/src/transport/rfb_transport.cpp:1897-1937 | A sent update stays inside the request, the frame and an armed continuous region, with at most 64 rectangles including DesktopSize. |
| `ViewerCoherence.AnswerRepairs` | src/runtime/src/transport/rfb_transport.cpp:1859-1971 | An idle viewer with an outstanding request is sent every stale pixel of the requested area. |
| `ViewerCoherence.WholeFrameAnswerConverges` | src/runtime/src/transport/rfb_transport.cpp:1859-1971 | After an update answering a request that contains a pixel, the viewer shows the served frame there; for a whole-frame request, everywhere. |
| `ViewerCoherence.PartialRefreshKeepsRest` | src/runtime/src/transport/rfb_transport.cpp:1963-1967 | Clearing a forced refresh after a partial answer loses no pending pixel. |
| `ViewerService.WaitingIsServed` | src/runtime/src/transport/rfb_transport.cpp:1859-1971 | A viewer that waits for a pixel, by a request or by continuous updates, and whose socket is ready is sent it if it is stale, asked for in full, or the size changed; afterwards it shows the frame there. |
| `ViewerService.FrameServes` | src/runtime/src/transport/rfb_transport.cpp:650-668 | A frame that arrives is shown by every waiting viewer whose socket is ready. |
| `ViewerService.RequestServes` | src/runtime/src/transport/rfb_transport.cpp:1273-1311 | A request is answered at once: the viewer shows the frame in the requested area. |
| `ViewerService.EnablingServes` | src/runtime/src/transport/rfb_transport.cpp:1243-1248 | Enabling continuous updates shows what is stale in the region and starts following it. |
| `ViewerService.ContinuousViewerFollows` | src/runtime/src/transport/rfb_transport.cpp:982-988 | After any run in which it is not disturbed, a continuous viewer shows every frame that finds its socket ready, in its region and without a request. |
| `ViewerService.NoEmptyUpdate` | src/runtime/src/transport/rfb_transport.cpp:1897-1937 | No update is sent without a pixel rectangle or a new size; a request for nothing in the frame is dropped. |
| `ViewerService.FailsIff` | src/runtime/src/transport/rfb_transport.cpp:1871-1946 | A viewer whose answer is tried fails exactly when the size cannot be told to it, or there is something to send that cannot be encoded or written. |
| `ViewerLifecycle.InitTellsSize` | src/runtime/src/transport/rfb_transport.cpp:1110-1122 | A new viewer is told the size of the observed frame, or else the one known beforehand, and owed everything; without either it waits, and a size that cannot be told ends it. |
| `ViewerLifecycle.FirstFrameEndsWaiting` | src/runtime/src/transport/rfb_transport.cpp:650-668 | The first frame makes a waiting viewer Normal. |
| `ViewerLifecycle.EncodingsTakeEffect` | src/runtime/src/transport/rfb_transport.cpp:1152-1205 | SetEncodings replaces both settings; giving up continuous updates takes back the request they stood for, not one of the viewer's own. |
| `ViewerLifecycle.ContinuousNeedsEncoding` | src/runtime/src/transport/rfb_transport.cpp:1216-1254 | Enabling continuous updates is refused without the encoding or for an empty region; disabling sends nothing and keeps the viewer's own request. |
| `ViewerLifecycle.UnchangedFrameCostsNothing` | src/runtime/src/transport/rfb_transport.cpp:613-671 | A frame that shows nothing new leaves a viewer that is owed nothing as it is, request included. |
| `ViewerLifecycle.OthersAreLeftAlone` | src/runtime/src/transport/rfb_transport.cpp:1126-1352 | A step about one viewer changes no other viewer. |
| `ViewerLifecycle.LeavesForGood` | src/runtime/src/transport/rfb_transport.cpp:795-815 | A viewer that leaves is forgotten, and with the last one the frame of a worker that drops idle frames. |
| `ViewerObject.Viewer.TrySendUpdate` | src/runtime/src/transport/rfb_transport.cpp:1859-1971 | The imperative send attempt moves a viewer as the protocol step does. |
| `ViewerObject.Viewer.DeliverUpdate` | src/runtime/src/transport/rfb_transport.cpp:1897-1971 | Clipping, the empty case, DesktopSize and the commit of one answer, in place. |
| `Trle.TrleRoundTrip` | src/runtime/src/transport/rfb_trle.hpp:43-173 | A decoder written from section 7.7.5 of RFC 6143 consumes exactly the emitted bytes and returns the presented RGB of every pixel, for every readable frame, alpha mode and rectangle. |
| `Trle.TileRoundTrip` | src/runtime/src/transport/rfb_trle.hpp:77-170 | Raw, solid and packed palette tiles of any size, edge tiles included, decode to their pixels. |
| `Trle.RowRoundTrip` | src/runtime/src/transport/rfb_trle.hpp:150-169 | The 1, 2 and 4 bit packing loop, with its pending byte at any fill level, is undone by the digit reader. |
| `Trle.TileIsBytes` | src/runtime/src/transport/rfb_trle.hpp:77-170 | The 8-bit packing register never overflows: only bytes are emitted. |
| `Trle.TileLength` | src/runtime/src/transport/rfb_trle.hpp:77-170 | A tile takes 4 bytes for one colour, 1, 2 or 4 bits a pixel beside its palette for 2, up to 4 and up to 16 colours, and three bytes a pixel only for more. |
| `TrleUpdate.TrleUpdateRoundTrip` | src/runtime/src/transport/rfb_transport.cpp:1839-1946 | A reader of the standard consumes exactly a whole update with TRLE rectangles; covered pixels show the frame, the others what they showed, or nothing after DesktopSize. |
| `TrleEncoder.ScanPalette` | src/runtime/src/transport/rfb_trle.hpp:82-106 | The scan finds the palette in order of first appearance and gives up exactly at the seventeenth colour. |
| `TrleEncoder.PackIndexRow` | src/runtime/src/transport/rfb_trle.hpp:150-169 | The packing loop emits the specified row bytes. |
| `TrleEncoder.EncodeTileBytes` | src/runtime/src/transport/rfb_trle.hpp:83-170 | Encoding one tile through palette array and index array emits the specified bytes. |
| `TrleEncoder.AppendTrlePayload` | src/runtime/src/transport/rfb_trle.hpp:43-173 | The payload is appended exactly when the frame can be encoded, and is the specified one. |
| `Wire.NativePixel` | src/runtime/src/transport/rfb_transport.cpp:209-231 | In the native format, scaling, shifting and or-ing the channels yields the bytes red, green, blue, 0. |
| `Wire.NothingIsCutOff` | src/runtime/src/transport/rfb_transport.cpp:145-231 | In every supported format and either byte order the bytes of a pixel stand for its whole value. |
| `PixelChannels.ScaleIsNearest` | src/runtime/src/transport/rfb_transport.cpp:209-212 | A scaled channel is the value nearest to its share of the maximum. |
| `PixelChannels.ChannelsReadBackIff` | src/runtime/src/transport/rfb_transport.cpp:209-231 | In a supported format with mask maxima, every colour arrives as the nearest one the format has exactly when the bit ranges of the channels have no bit in common. |
| `RawReader.RawReadsBack` | src/runtime/src/transport/rfb_transport.cpp:1785-1822 | A viewer of any such format that reads a Raw rectangle pixel by pixel finds the nearest colours, row by row. |
| `Wire.S32RoundTrip` | src/runtime/src/transport/rfb_transport.cpp:94-124 | A signed 32-bit encoding number survives printing and reading. |
| `RawEncoder.AppendRawRectangle` | src/runtime/src/transport/rfb_transport.cpp:1742-1822 | The row-copy path and the per-pixel path both append the header and the presented pixels in the viewer's format; the rectangle is refused exactly when the frame is unreadable or the payload exceeds an int. |
| `RawEncoder.CopiedIsPresented` | src/runtime/src/transport/rfb_transport.cpp:1785-1801 | A copied row with every fourth byte cleared is the presented row when alpha is not straight. |
| `WireAgreement.ServerInitAgrees` | tools/hyremote-tool/rfb_client.cpp:264-310 | The tool accepts the server's ServerInit bytes, takes over size and name, starts black and requests everything. |
| `HandshakeAgreement.HandshakeCompletes` | src/runtime/src/transport/rfb_transport.cpp:1020-1122 | Server and tool get to ServerInit in three exchanges with the bytes of the protocol, nothing left over. |
| `HandshakeAgreement.SecurityTypesIff` | tools/hyremote-tool/rfb_client.cpp:202-240 | The tool chooses no security exactly when it is offered, and refuses any other list. |
| `HandshakeAgreement.ServerInitIff` | tools/hyremote-tool/rfb_client.cpp:264-310 | A ServerInit is taken exactly when the tool allows its size and name and its format is the native one. |
| `WireAgreement.UpdateAgrees` | tools/hyremote-tool/rfb_client.cpp:371-517 | The tool consumes exactly the bytes of a printed update; covered pixels become the frame's, the others keep their colour, or are black after DesktopSize; only request bookkeeping changes besides. |
| `WireAgreement.ScanOfRects` | tools/hyremote-tool/rfb_client.cpp:394-436 | The header pass finds exactly the printed rectangles. |
| `WireAgreement.BlitPixel` | tools/hyremote-tool/rfb_client.cpp:495-501 | Copying the rows of a rectangle sets exactly its pixels. |
| `CursorAgreement.CursorAgrees` | tools/hyremote-tool/rfb_client.cpp:462-487 | The tool reads back colours, mask and clamped hotspot of the printed cursor, and leaves its picture alone. |
| `CursorAgreement.CursorPixelIsShown` | src/runtime/src/transport/rfb_transport.cpp:1450-1515 | A cursor of up to 256 by 256 pixels is sent, and each pixel the tool shows is the one at its place in the image, transparent where alpha is zero. |
| `CursorAgreement.MaskBit` | src/runtime/src/transport/rfb_transport.cpp:1493-1505 | A bit of the printed mask is set exactly for the pixels with non-zero alpha. |
| `ToolMirror.AnswerWithinBudgets` | tools/hyremote-tool/rfb_client.cpp:375-436 | Answers to a request of at most 16 Mi pixels from a frame of at most 16 Mi pixels meet the tool's limits of 64 rectangles and 96 MiB. |
| `ToolMirror.UpdateKeepsMirror` | src/runtime/src/transport/rfb_transport.cpp:1859-1971 | After parsing an update, to a current or an outdated request, the tool shows every pixel the server counts as sent, at the size the server has for it. |
| `ToolMirror.ToolShowsFrame` | src/runtime/src/transport/rfb_transport.cpp:1859-1971 | After an answer to its whole-size request the tool shows the presented frame, pixel for pixel. |
| `ToolMirror.InitMirrors` | src/runtime/src/transport/rfb_transport.cpp:1355-1393 | Both ends start from the same size and an empty picture. |
| `ToolSession.ToolFollowsServer` | tools/hyremote-tool/rfb_client.cpp:181-342 | Over every run of the worker with all its viewers, the tool and the two streams between them, with resizes, cursors, requests, keys and pointer moves crossing and reads within the receive budget: the tool refuses nothing and holds less than 96 MiB, the server refuses exactly the press of a 65th key, and whenever the tool has read everything it mirrors what the server counts as sent. |
| `ToolSession.ReadFailsIff` | tools/hyremote-tool/rfb_client.cpp:104-116 | In every state such a run reaches, a read fails exactly when it takes the buffer over the receive budget, and a read of up to 32 MiB never does. |
| `ToolSession.SmallReadsAreFair` | tools/hyremote-tool/rfb_client.cpp:104-116 | Reads of up to 32 MiB stay within the budget over a whole run, whatever happens between them. |
| `ToolSession.AtRestTheToolShowsTheFrame` | src/runtime/src/transport/rfb_transport.cpp:1859-1971 | In every such run, when everything is read and nothing is owed the tool shows the presented frame, pixel for pixel. |
| `ToolSession.EventKeepsInv` | tools/hyremote-tool/rfb_client.cpp:371-517 | Every frame, drain, message, cursor, read, key and pointer move keeps the two ends in step. |
| `ToolSession.DrainWrites` | tools/hyremote-tool/rfb_client.cpp:344-369 | Whatever the server sends, the tool writes only its encodings and whole-size requests of an allowed size. |
| `ToolSession.RequestsDecode` | src/runtime/src/transport/rfb_transport.cpp:1152-1334 | Whatever keys are held, the server takes each message of the tool (encodings, request, key, pointer) whole, except exactly the press of a known key not yet held when 64 are. |
| `ToolMessages.RequestIsUnderstood` | tools/hyremote-tool/rfb_client.cpp:344-369 | The server decodes the tool's request with the flag and the size the tool meant. |
| `ToolMessages.EncodingsAreUnderstood` | tools/hyremote-tool/rfb_client.cpp:344-369 | The server decodes the tool's encodings: raw pixels, resizes and cursors, no continuous updates, no fences. |
| `ToolMessages.KeyIsUnderstood` | tools/hyremote-tool/rfb_client.cpp:532-548 | The server decodes the tool's keys, and refuses exactly one too many. |
| `ToolSession.OneKeyTooManyEndsTheViewer` | src/runtime/src/transport/rfb_transport.cpp:1588-1603 | A run in which the server does refuse the tool: 64 presses are taken, and the 65th ends the viewer. |
| `ToolSession.ClientInitBegins` | src/runtime/src/transport/rfb_transport.cpp:1110-1122 | A new viewer of any worker whose ServerInit answers its ClientInit starts in step with the tool. |
| `ToolSession.FirstFrameBegins` | src/runtime/src/transport/rfb_transport.cpp:650-671 | So does a viewer that had to wait for the first frame. |
| `ToolProgress.FrameReachesTool` | src/runtime/src/transport/rfb_transport.cpp:613-671 | In every state of such a run, a frame that finds the tool's viewer waiting and its socket ready is on the tool's screen as soon as the tool has read it. |
| `ToolObject.RfbClient.ParseFramebufferUpdate` | tools/hyremote-tool/rfb_client.cpp:371-517 | The two passes with their loops take one complete update off the buffer, wait, or fail, as specified. |
| `ToolObject.RfbClient.Process` | tools/hyremote-tool/rfb_client.cpp:181-342 | The message loop drains the buffer as specified, and terminates. |
| `ToolObject.RfbClient.OnReadyRead` | tools/hyremote-tool/rfb_client.cpp:104-116 | A read over the receive budget fails; any other is fed to the parser. |
| `Chunking.FeedAllIsFeed` | tools/hyremote-tool/rfb_client.cpp:104-116 | For every parser whose decisions are stable under more input, reading a stream in pieces equals reading it at once. |
| `ServerMessages.ServerChunkingDoesNotMatter` | src/runtime/src/transport/rfb_transport.cpp:1126-1353 | However the stream of a Normal viewer is split, the same messages are decoded, up to the first refusal. |
| `ClientMessages.MessageIsRead` | src/runtime/src/transport/rfb_transport.cpp:1126-1352 | Every message a viewer prints, whatever follows it, is taken whole and means what it says, or is refused, exactly when it is not acceptable in the viewer's state. |
| `ClientMessages.PartIsWaitedFor` | src/runtime/src/transport/rfb_transport.cpp:1126-1352 | A part of a printed message is waited for exactly until the message is complete, or until its header shows that it is not acceptable. |
| `ClientMessages.UnknownTypeIsRefused` | src/runtime/src/transport/rfb_transport.cpp:1350-1352 | A message of any other type is refused at its first byte. |
| `ClientMessages.StreamIsRead` | src/runtime/src/transport/rfb_transport.cpp:1126-1352 | A stream of acceptable messages is decoded to exactly those messages, with nothing left over. |
| `ServerMessages.LeftoverIsBounded` | src/runtime/src/transport/rfb_transport.cpp:1126-1353 | After every read the buffer is empty or a strict prefix of one message, shorter than 64 KiB + 8. |
| `ServerMessages.LimitIsOutOfReach` | src/runtime/src/transport/rfb_transport.cpp:942-967 | Reads of up to 192 KiB less 8 bytes never meet the 256 KiB input limit. |
| `ClientMessages.OversizedReadIsRefused` | src/runtime/src/transport/rfb_transport.cpp:948-979 | A read is refused unread exactly when it takes the waiting input over 256 KiB. |
| `ServerMessages.ViewerConnection.Receive` | src/runtime/src/transport/rfb_transport.cpp:942-967 | The read path refuses an oversized read before buffering it, and otherwise drains the buffer. |
| `ToolClient.ToolChunkingDoesNotMatter` | tools/hyremote-tool/rfb_client.cpp:181-342 | From the version message on, the tool ends in the same state however its stream is split. |
| `ToolRefusals.HeaderRefusedIff` | tools/hyremote-tool/rfb_client.cpp:394-436 | The tool refuses a rectangle header exactly for a raw payload over 64 MiB, a cursor that is not of 1 to 256 pixels each way, or an encoding it did not ask for. |
| `ToolRefusals.RectangleAppliesIff` | tools/hyremote-tool/rfb_client.cpp:438-505 | A rectangle is applied exactly when it is a cursor, a resize to 1 to 16 Mi pixels, or pixels inside the picture. |
| `ToolRefusals.FirstRefusalDecides` | tools/hyremote-tool/rfb_client.cpp:438-517 | The first rectangle that cannot be applied ends the tool, whatever comes before and after it. |
| `SessionSafety.StepKeepsInv` | src/core/src/session.cpp:626-702 | Every critical section, component call and worker event of any number of concurrent start and stop callers keeps the protocol invariant. |
| `SessionSafety.ExactlyOnceCleanup` | src/core/src/session.cpp:801-1184 | Once all calls have returned and the state is Stopped, each component start that returned true or threw was stopped exactly once, a refused one never, and every thread was joined. |
| `SessionSafety.NeverTooOften` | src/core/src/session.cpp:626-702 | At no moment has anything been stopped or joined twice, or without need. |
| `SessionSafety.OneTeardownOwner` | src/core/src/session.cpp:563-596 | At most one caller owns a teardown. |
| `SessionSafety.CancelledNeverPublishes` | src/core/src/session.cpp:1077-1098 | Once a teardown of a run was claimed or begun, its start() never publishes Running. |
| `SessionSafety.RunningIsComplete` | src/core/src/session.cpp:1077-1098 | Running means that both components of the latest run returned true and neither was stopped. |
| `SessionProgress.StartPublishesIff` | src/core/src/session.cpp:801-1098 | Under any interleaving, a start() publishes Running exactly when source, workers and transport all came up and its run is still the current one when it commits. |
| `SessionProgress.UndisturbedStartRuns` | src/core/src/session.cpp:801-1098 | A start() of a Stopped session whose components come up ends Running, whatever others do that is not a claim, a teardown or a worker failure. |
| `SessionProgress.WorkersStayWhileAlive` | src/core/src/session.cpp:468-500 | In every reachable state the scheduler of a live run does not exit and its dispatcher does not begin before start() has decided. |
| `TeardownProgress.TeardownCanFinish` | src/core/src/session.cpp:626-704 | From every reachable state the owner of a teardown can finish it with its own steps and those of the worker threads: no join waits for a thread that cannot exit. |
| `TeardownProgress.StopCanFinish` | src/core/src/session.cpp:1148-1184 | From every reachable state a stop() can end with the session Stopped, after the claim it has to wait for is given up. |
| `TeardownProgress.FailedStartCanReturn` | src/core/src/session.cpp:934-1132 | From every reachable state a start() that failed can return, with its run torn down and the session Faulted if the run is still current and nobody else tears it down. |
| `SessionProgress.WorkersAsFarAsCreated` | src/core/src/session.cpp:986-1034 | What the creation of mailbox and threads leaves behind, however far it got. |
| `SessionSafety.EnqueueInsideTransportLife` | src/core/src/session.cpp:706-759 | Every hand-over lies between the start of the transport of the worker's run, which returned true, and the stop that belongs to it. |
| `SessionSafety.TeardownStopsTheRunsObjects` | src/core/src/session.cpp:626-672 | A teardown stops the objects its run was started with, although setters may have replaced components between runs. |
| `SessionSafety.GenerationAloneIsNotEnough` | src/core/src/session.cpp:581-584 | A run from the initial state, with two starts and two stops, in which a stop() that claimed while Stopped tears down a run whose generation is still current; only the state check turns that start away. |
| `SessionObject.SessionImpl.ClaimSession` | src/core/src/session.cpp:826-898 | The claim of a run, in place. |
| `SessionObject.SessionImpl.CommitTransportStart` | src/core/src/session.cpp:1077-1098 | Transport commit, cancellation check and publication in one critical section, in place. |
| `SessionObject.SessionImpl.ClaimForFailure` | src/core/src/session.cpp:588-596 | The failure claim is taken exactly when the run is current and unclaimed. |
| `SessionObject.SessionImpl.TakeOverRun` | src/core/src/session.cpp:633-655 | The snapshot takes every started flag over and clears it. |
| `CallbackGate.QuiescentAfterClose` | src/core/src/session.cpp:127-136 | Once closeAndDrain has returned, then and ever after no callback is inside and none gets the target. |
| `CallbackGate.LateCallbackIsIgnoredOnce` | src/core/src/session.cpp:158-170 | Whatever other threads do between its three steps, a callback that meets a closed gate ends ignored; beside it the run is the one without it, with a counter higher by exactly one. |
| `CallbackGate.IgnoredIsExact` | src/core/src/session.cpp:97-175 | The counters equal the number of callbacks inside and of callbacks ignored. |
| `GateProgress.EntersUntilClose` | src/core/src/session.cpp:97-134 | In every reachable state a callback gets in exactly when no close has begun. |
| `GateProgress.CloseCanReturn` | src/core/src/session.cpp:127-134 | Every close can return: it waits for nothing but the callbacks inside. |
| `CallbackGate.SessionGate.TryEnter` | src/core/src/session.cpp:106-115 | Entering counts the callback and hands out the target exactly while the gate lets callbacks in. |
| `Mailbox.NoFrameLost` | src/core/src/detail/mailbox.cpp:26-93 | Over every sequence of operations each accepted frame is popped, dropped or waiting, in exactly one place, with the content that was accepted under its id. |
| `Mailbox.DropOldestAcceptsAll` | src/core/src/detail/mailbox.cpp:26-78 | DropOldest accepts exactly the pushes before the close, in order. |
| `Mailbox.PushDecidedIff` | src/core/src/detail/mailbox.cpp:26-78 | A push is refused exactly when the box is closed or full under ProducerThrottle, drops the oldest waiting frame exactly when it is accepted by a full box, and counts each refusal. |
| `Mailbox.PopsDrain` | src/core/src/detail/mailbox.cpp:80-93 | As many pops as frames wait hand all of them out, oldest first, and then say empty or closed. |
| `Mailbox.PushKeepsValid` | src/core/src/detail/mailbox.cpp:22-69 | Waiting ids stay the consecutive run ending at the last assigned id; stored = popped + dropped + waiting. |
| `Mailbox.OwnershipBound` | src/core/src/detail/mailbox.hpp:9-15 | Waiting plus dispatcher-owned never exceeds capacity + 1, nor does its recorded maximum. |
| `Mailbox.FrameMailbox.Push` | src/core/src/detail/mailbox.cpp:22-69 | The in-place push, storing before it drops, does what the specification says. |
| `Mailbox.FrameMailbox.TryPop` | src/core/src/detail/mailbox.cpp:71-86 | The in-place pop hands out the oldest frame and takes ownership. |
| `RunPipeline.InFlightIsExact` | src/core/src/session.cpp:318-364 | While Running, inFlight is the number of requests of this run that can still complete, and never exceeds maxInFlight; completions of earlier runs do not touch it. |
| `RunPipeline.ThrottleNeverOverflows` | src/core/src/session.cpp:270-283 | Under ProducerThrottle waiting + inFlight stays within the capacity and no push is rejected for overflow. |
| `RunPipeline.FramesAreConserved` | src/core/src/session.cpp:670-700 | After a teardown accepted = dispatched + dropped + left, and nothing is left unless the dispatch worker died. |
| `RunPipeline.DeathBreaksBalanceIff` | src/core/src/session.cpp:446-466 | For every run in which the dispatch worker dies, accepted = dispatched + dropped holds exactly when it died with no frame in hand and none waiting; what it left is decided at that moment. |
| `RunPipeline.DeadWorkerLosesFrame` | src/core/src/session.cpp:446-466 | A concrete run: a worker that dies with one frame waiting leaves one accepted frame neither dispatched nor dropped. |
| `RunPipeline.DispatchedInOrder` | src/core/src/session.cpp:706-775 | Within a run the transport gets accepted frames only, in acceptance order, each at most once and with its content; the ownership bound holds at every moment. |
| `RunPipeline.ThrottleDeliversAll` | src/core/src/session.cpp:626-704 | Under ProducerThrottle a run whose worker did not die has handed over every accepted frame, in order and unchanged, when its teardown is finished. |
| `RunPipeline.IssuesUpToTheLimit` | src/core/src/session.cpp:270-290 | A Running session asks for another frame unless a request is being issued, the limit of completable requests is used up, or they and the waiting frames fill the queue. |
| `RunPipeline.CompletionIsAccepted` | src/core/src/session.cpp:318-366 | A valid frame that completes a request of a Running session frees its slot, is accepted and waits last. |
| `PipelineProgress.RefusalFreesSlot` | src/core/src/session.cpp:528-560 | A refused request gives its slot back; a source that throws faults the session. |
| `PipelineProgress.TeardownCanDrain` | src/core/src/session.cpp:626-775 | Every run can be torn down, and with a live worker everything accepted and not dropped is handed over first. |
| `PipelineObject.SessionCore.OnFrameReady` | src/core/src/session.cpp:318-364 | The completion callback frees its slot, and stores a valid frame of a Running session, in place. |
| `PipelineObject.SessionCore.IssueRequest` | src/core/src/session.cpp:507-529 | The scheduler takes a slot and an id exactly when admission allows. |
| `InputAdmission.BoundHolds` | src/runtime/src/detail/input_mailbox_admission.hpp:14-114 | For whole-batch and for one-at-a-time drains, with failed scheduling at any time, at most 64 normal events and 136 releases are pending, per slot at most one release more than presses, and no release whose press was accepted is refused for room. |
| `InputAdmission.ReserveNeverFull` | src/runtime/src/detail/input_mailbox_admission.hpp:18-59 | In every reachable state a protected release finds room in the reserve. |
| `InputAdmission.ReleaseAdmittedIffPressed` | src/runtime/src/detail/input_mailbox_admission.hpp:41-85 | A release is admitted exactly when the latest accepted transition of its slot since the last reset is a press. |
| `InputAdmission.ReleasePostedIff` | src/runtime/src/automatic/interactive_composite_target.cpp:59-119 | Posting any release leaves it pending exactly when there is an application object, no deferred error is reported in its place, its press was accepted and not discarded since and, for the composite sink, the drain is scheduled or can be. |
| `InputAdmission.DeferredErrorLosesRelease` | src/runtime/src/automatic/interactive_composite_target.cpp:73-106 | A concrete sequence in which a deferred error swallows the release of a held button. |
| `InputAdmission.FailedSchedulingLosesRelease` | src/runtime/src/automatic/interactive_composite_target.cpp:110-119 | A concrete sequence in which the press is delivered, another event cannot be scheduled, the reset discards the hold, and the release is unmatched. |
| `InputProgress.NormalPostedIff` | src/runtime/src/automatic/interactive_composite_target.cpp:59-119 | Posting any other event leaves it pending exactly when there is an application object, no deferred error, fewer than 64 such events and, for the composite sink, a turn or one that can be scheduled. |
| `InputProgress.PendingHasTurn` | src/runtime/src/quick/quick_target.cpp:520-563 | In every reachable state a turn is scheduled for what is pending, always for the composite sink, and for the Quick sink unless a scheduling failed. |
| `InputProgress.ScheduledMeansTurn` | src/runtime/src/quick/quick_target.cpp:520-563 | Over every run of posts and turns a turn is queued or running exactly when the sink is marked as scheduled, and never two. |
| `InputProgress.CompositeTurnsDrain` | src/runtime/src/automatic/interactive_composite_target.cpp:424-476 | As many turns as events are pending hand all of them over, in order, and leave no count behind. |
| `InputProgress.SlotsAreDistinct` | src/runtime/src/detail/input_mailbox_admission.hpp:118-170 | Exactly the keys 1 to 69 and the three buttons can be held, and no two share a slot. |
| `InputSinks.MailboxAdmission.AcceptNormalEvent` | src/runtime/src/detail/input_mailbox_admission.hpp:61-72 | The counters and the arrays of held flags follow the specification. |
| `InputSinks.InputSink.PostEvent` | src/runtime/src/quick/quick_target.cpp:520-563 | post() of either sink, with a missing application object and a scheduling failure, in place. |
| `InputSinks.InputSink.PostUnderLock` | src/runtime/src/quick/quick_target.cpp:528-552 | The critical section of post() decides about the event and who has to schedule the drain. |
| `InputSinks.InputSink.TakeFirst` | src/runtime/src/automatic/interactive_composite_target.cpp:424-448 | The composite turn takes exactly the oldest event. |
| `InputSinks.InputSink.TakeBatch` | src/runtime/src/quick/quick_target.cpp:728-742 | The Quick turn takes the whole queue. |
| `HeldInput.HeldIsUnionOfViewers` | src/runtime/src/transport/rfb_transport.cpp:1588-1740 | Over every run from the start each key or button count is the number of its holders, and its latest published transition is a press exactly when some viewer holds it. |
| `HeldInput.LeavingReleasesKeys` | src/runtime/src/transport/rfb_transport.cpp:1545-1586 | When a viewer has left, a key is held exactly when a remaining viewer holds it. |
| `HeldInput.LeavingReleasesButtons` | src/runtime/src/transport/rfb_transport.cpp:1545-1586 | When a viewer has left, a button is held exactly when a remaining viewer holds it down. |
| `HeldPublishing.PressPublishesIff` | src/runtime/src/transport/rfb_transport.cpp:1588-1640 | A press is published exactly when nobody holds the key or as a repetition by its holder; one keysym too many ends the viewer. |
| `HeldPublishing.ReleasePublishesIff` | src/runtime/src/transport/rfb_transport.cpp:1588-1640 | A release is published exactly when the viewer holds the keysym and was the last holder of the key. |
| `HeldPublishing.ButtonPublishesIff` | src/runtime/src/transport/rfb_transport.cpp:1667-1740 | A button transition is published by the first viewer that presses it and the last that lets it go. |
| `HeldPublishing.DepartureOrder` | src/runtime/src/transport/rfb_transport.cpp:1545-1586 | A departure releases buttons, then plain keys, then modifiers. |
| `HeldInput.StepKeepsInv` | src/runtime/src/transport/rfb_transport.cpp:1545-1740 | Key, pointer, connect and disconnect steps keep counts, limits and published transitions consistent. |
| `HeldInputObject.InputHub.DeliverKeyEvent` | src/runtime/src/transport/rfb_transport.cpp:1588-1630 | Reference counting of one key event, in place, with the limit of 64 held keys. |
| `HeldInputObject.InputHub.DeliverPointerEvent` | src/runtime/src/transport/rfb_transport.cpp:1667-1740 | The button loop over old and new mask, in place. |
| `HeldInputObject.InputHub.ReleaseHeldInput` | src/runtime/src/transport/rfb_transport.cpp:1545-1586 | Buttons, plain keys, then modifiers are released, in place. |
| `SurfaceStack.OperationRestacks` | src/runtime/src/automatic/application_surface_model.cpp:8-62 | Every operation does to the serials what moving to the end does to the list; one that renumbers does so when the other visible surfaces have an area. |
| `SurfaceStack.PaintOrderIsShowOrder` | src/runtime/src/automatic/application_surface_model.cpp:81-96 | After any operations, renumbering ones under that condition included, the back-to-front order is the order of the last show or raise. |
| `SurfaceStack.PaintedIffListed` | src/runtime/src/automatic/application_surface_model.cpp:81-96 | Exactly the listed surfaces with an area are painted. |
| `SurfaceStack.RenumberingFollowsIff` | src/runtime/src/automatic/application_surface_model.cpp:128-139 | In every stacked state the renumbered serials follow the list exactly when no visible surface without an area lies below one with an area. |
| `SurfaceStack.NoGapIsNotEnough` | src/runtime/src/automatic/application_surface_model.cpp:128-139 | For the whole operation that condition is not enough: a raise that renumbers puts its surface below one without an area that was on top. |
| `SurfaceStack.EmptySurfaceJumpsUp` | src/runtime/src/automatic/application_surface_model.cpp:128-139 | A run from the empty model, through all 64-bit serials, after which a surface whose geometry was empty at the wrap is painted above the one raised last. |
| `SurfaceStack.BackToFrontSorts` | src/runtime/src/automatic/application_surface_model.cpp:81-96 | The sorted list holds exactly the visible surfaces with an area, strictly increasing. |
| `SurfaceRecords.ModelIsMap` | src/runtime/src/automatic/application_surface_model.cpp:8-79 | After any operations the model holds exactly the surfaces of a map driven by the same operations, each once, with geometry and visibility. |
| `SurfaceRouting.RouteAgreesWithPaint` | src/runtime/src/automatic/composite_target_routing.cpp:36-57 | A canvas point is routed to the surface painted there last, as the point relative to its corner; nowhere exactly when no visible surface covers it. |
| `SurfaceRecords.CutHoldsOnce` | src/runtime/src/automatic/composite_target_routing.cpp:40-52 | A rectangle cut in two holds each point exactly once: neighbouring surfaces share no point and leave none out. |
| `SurfaceRouting.BoundsCover` | src/runtime/src/automatic/application_surface_model.cpp:64-79 | The canvas covers every visible surface. |
| `SurfaceRouting.PaintedIsTopmost` | src/runtime/src/automatic/composite_target.cpp:375-403 | Painting back to front leaves the last covering surface on top. |
| `SurfaceObject.SurfaceModel.NextStackSerial` | src/runtime/src/automatic/application_surface_model.cpp:128-139 | The renumbering loop gives out the specified serials. |
| `SurfaceObject.SurfaceModel.UpsertSurface` | src/runtime/src/automatic/application_surface_model.cpp:8-25 | Insert or update in place; a surface that becomes visible goes on top. |
| `SurfaceObject.SurfaceModel.SetSurfaceGeometry` | src/runtime/src/automatic/application_surface_model.cpp:45-49 | The geometry of a known surface changes in place, its serial does not. |
| `SurfaceObject.SurfaceModel.RouteCanvasPoint` | src/runtime/src/automatic/application_surface_model.cpp:98-112 | The search from the top finds the routed surface. |
| `WorkOrderLedger.Worker.Process` | tools/local-owner/worker.py:462-520 | For every outcome of every step the ledger stays faithful and a STARTED order is left alone; a normal end leaves exactly the specified ledger and events: BLOCKED unexecuted when the first check saw another commit, otherwise run between two checks and recorded with its outcome only if both saw the commit. |
| `WorkOrderLedger.Worker.Execute` | tools/local-owner/worker.py:452-459 | The operation runs only directly after a check that saw the commit of the order. |
| `WorkOrderLedger.Worker.Poll` | tools/local-owner/worker.py:546-567 | A poll keeps the ledger faithful however it ends; a normal end has reported everything finished and, when executing, recorded every order that was not STARTED before. |
| `WorkOrderLedger.Worker.DeliverOutbox` | tools/local-owner/worker.py:550-558 | The outbox loop reports every finished order and executes none. |
| `WorkOrderLedger.Polls` | tools/local-owner/worker.py:546-567 | After any number of polls with any failures or crashes no order was executed twice, every execution directly followed a check that saw its commit, an outcome other than BLOCKED stands for a run between two such checks, and RECORDED implies a delivered result. |
| `WorkOrderLedger.Worker.LedgerWrite` | tools/local-owner/worker.py:157-168 | The file holds the old or the new ledger. |

## Left out

- Integer width of region arithmetic: rectangles use unbounded integers; frames are limited to
  65535 by 65535 before anything is sent, so 32-bit edges stay in range for served frames.
- The byte width of counters and ids (64-bit frame ids, generations, request ids) is not
  modelled, except for the stack serials, whose wrap is part of the property.
- Deadlines, the occupancy sweep, cursor polling and pacing: they add time without a deeper
  invariant.
- VNC authentication: the handshake is modelled without it.  Independence of the split into reads
  is stated for the Normal phase of the server.
- Run-length subencodings of TRLE (127 to 255): the encoder never emits them, and the decoder
  here treats them as malformed.
- The drawn shape of the fallback cursor, and the signature that suppresses an unchanged
  cursor.
- The tool's remote-control switch: with the picture on, it may send any key or pointer move.
- SurfaceStack.OperationRestacks: for an operation that renumbers, the areas of the other visible
  surfaces are a sufficient condition; the exact one is given for the renumbering alone.
- The unused fourth byte of the tool's picture, and text decoding of server names.
- Socket write failures in the chunking results: an acknowledgement that cannot be written
  ends the connection as a protocol failure would.
- Modifier sets, text events, pointer moves and scrolling: they carry no hold.
- The keysym table is a parameter; the held-input results hold for every table.
- Delivery of events to Qt widgets and Quick items, pointer grabs and coordinate mapping.
- Composite capture: painting assumes that every visible surface has a frame.
- Capability negotiation, configuration checks and validation of frames: a start that fails
  before its claim is one rejected step.
- A worker thread whose failure report itself fails: the model always records the fault.
- A viewer between a protocol failure and its queued abort: in the source it stays Normal until
  the abort; here it is `Failed` at once, and nothing is claimed about its picture.
- Power failures: a rename of the ledger file that was carried out is taken as durable,
  although the directory is not synced.
- The orders' content and expiry, and the tasks behind `execute`: any outcome is possible.
- JSON text of the ledger: reading back returns what was written, or raises.
- The C++ and Python code itself: the proofs are about this model of it.
